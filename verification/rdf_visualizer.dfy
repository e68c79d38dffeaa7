/** The graph view of `RDFVisualizer` (rdf_visualizer.py): the triples of an RDF graph folded
    into a directed graph of their strings, and the node and edge records of its JSON export.
    The RDF graph is given as the sequence its iteration yields; drawing, layout and writing
    the file are not modelled. */
module RdfVisualizer {
  import opened Wrappers
  import opened Seqs
  import opened Rdf

  /** A triple as strings: `str(s)`, `str(p)`, `str(o)`. */
  datatype Statement = Statement(s: string, p: string, o: string)

  function Strings(t: Triple): Statement {
    Statement(Show(t.s), Show(t.p), Show(t.o))
  }

  type Pair = (string, string)

  /** A directed graph as networkx keeps it: the nodes in insertion order, the `type` attribute
      of the nodes that have one, each node's successors in insertion order, and each edge's
      `label`. */
  datatype DiGraph = DiGraph(
    nodes: seq<string>,
    nodeType: map<string, string>,
    succ: map<string, seq<string>>,
    labels: map<Pair, string>)

  const EmptyGraph := DiGraph([], map[], map[], map[])

  /** The node side of a well-formed graph: nodes without repeats, a successor list for
      exactly the nodes, a type only on nodes. */
  ghost predicate NodesValid(g: DiGraph) {
    && Distinct(g.nodes)
    && (forall n :: n in g.succ <==> n in g.nodes)
    && (forall n :: n in g.nodeType ==> n in g.nodes)
  }

  /** The edge side: successor lists without repeats and of nodes only, and a label exactly on
      each edge. */
  ghost predicate EdgesValid(g: DiGraph) {
    && (forall u :: u in g.succ ==> Distinct(g.succ[u]))
    && (forall u, v :: u in g.succ && v in g.succ[u] ==> v in g.nodes)
    && (forall u, v :: (u, v) in g.labels <==> u in g.succ && v in g.succ[u])
  }

  /** The shape every graph built here keeps. */
  ghost predicate Valid(g: DiGraph) {
    NodesValid(g) && EdgesValid(g)
  }

  // ------------------------------------------------------------------ building

  /** A node is added, without attributes, when it is not there yet. */
  function Touch(g: DiGraph, n: string): (r: DiGraph)
    ensures n in r.succ
  {
    if n in g.succ then g else g.(nodes := g.nodes + [n], succ := g.succ[n := []])
  }

  /** `add_node(n, type=t)`: adds the node if needed and sets its type. */
  function AddNode(g: DiGraph, n: string, t: string): DiGraph {
    var h := Touch(g, n);
    h.(nodeType := h.nodeType[n := t])
  }

  /** `add_edge(u, v, label=l)`: adds missing end points, appends `v` to `u`'s successors for a
      new edge, and sets the label. */
  function AddEdge(g: DiGraph, u: string, v: string, l: string): DiGraph {
    var h := Touch(Touch(g, u), v);
    if (u, v) in h.labels then h.(labels := h.labels[(u, v) := l])
    else h.(succ := h.succ[u := h.succ[u] + [v]], labels := h.labels[(u, v) := l])
  }

  /** One turn of `_build_networkx_graph`'s loop. */
  function AddStatement(g: DiGraph, st: Statement): DiGraph {
    AddEdge(AddNode(AddNode(g, st.s, "subject"), st.o, "object"), st.s, st.o, st.p)
  }

  /** The graph of a sequence of statements, folded in order. */
  function Build(sts: seq<Statement>): (g: DiGraph)
    ensures Valid(g)
  {
    if |sts| == 0 then EmptyGraph
    else
      var front := Build(sts[..|sts| - 1]);
      AddStatementValid(front, sts[|sts| - 1]);
      AddStatement(front, sts[|sts| - 1])
  }

  /** The visualizer: the triples it was given and the graph built from them. */
  datatype Visualizer = Visualizer(triples: seq<Triple>, graph: DiGraph)

  /** `RDFVisualizer(rdf_graph)`: an empty graph is refused; otherwise the triples are folded
      into the directed graph one by one. */
  method NewVisualizer(ts: seq<Triple>) returns (r: Result<Visualizer, Exception>)
    ensures r.Failure? <==> |ts| == 0
    ensures r.Failure? ==> r.error == ValueError("RDF graph cannot be None")
    ensures r.Success? ==> (r.value.triples == ts)
    ensures r.Success? ==> r.value.graph == Build(seq(|ts|, i requires 0 <= i < |ts| => Strings(ts[i])))
  {
    if |ts| == 0 {
      return Failure(ValueError("RDF graph cannot be None"));
    }
    var sts := seq(|ts|, i requires 0 <= i < |ts| => Strings(ts[i]));
    var g := EmptyGraph;
    for i := 0 to |ts|
      invariant g == Build(sts[..i])
    {
      assert sts[..i + 1][..i] == sts[..i];
      g := AddStatement(g, Strings(ts[i]));
    }
    assert sts[..|ts|] == sts;
    r := Success(Visualizer(ts, g));
  }

  // ------------------------------------------------------------------ what the graph holds

  /** Statement `i` mentions `n` as its subject or its object. */
  predicate Mentions(sts: seq<Statement>, i: int, n: string) {
    0 <= i < |sts| && (sts[i].s == n || sts[i].o == n)
  }

  /** Some statement mentions `n`. */
  ghost predicate Mentioned(sts: seq<Statement>, n: string) {
    exists i :: Mentions(sts, i, n)
  }

  /** Statement `i` runs from `u` to `v`. */
  predicate Joins(sts: seq<Statement>, i: int, u: string, v: string) {
    0 <= i < |sts| && sts[i].s == u && sts[i].o == v
  }

  /** Some statement runs from `u` to `v`. */
  ghost predicate Joined(sts: seq<Statement>, u: string, v: string) {
    exists i :: Joins(sts, i, u, v)
  }

  /** A string is mentioned by a non-empty sequence of statements exactly when it is mentioned
      before the last statement or by the last one. */
  lemma MentionedStep(sts: seq<Statement>, x: string)
    requires |sts| > 0
    ensures Mentioned(sts, x) <==>
      Mentioned(sts[..|sts| - 1], x) || x == sts[|sts| - 1].s || x == sts[|sts| - 1].o
  {
    var n := |sts| - 1;
    var front := sts[..n];
    if Mentioned(sts, x) {
      var i :| Mentions(sts, i, x);
      if i < n { assert Mentions(front, i, x); }
    }
    if Mentioned(front, x) {
      var i :| Mentions(front, i, x);
      assert Mentions(sts, i, x);
    }
    if x == sts[n].s || x == sts[n].o { assert Mentions(sts, n, x); }
  }

  /** Likewise for the pairs the statements join. */
  lemma JoinedStep(sts: seq<Statement>, u: string, v: string)
    requires |sts| > 0
    ensures Joined(sts, u, v) <==>
      Joined(sts[..|sts| - 1], u, v) || (u == sts[|sts| - 1].s && v == sts[|sts| - 1].o)
  {
    var n := |sts| - 1;
    var front := sts[..n];
    if Joined(sts, u, v) {
      var i :| Joins(sts, i, u, v);
      if i < n { assert Joins(front, i, u, v); }
    }
    if Joined(front, u, v) {
      var i :| Joins(front, i, u, v);
      assert Joins(sts, i, u, v);
    }
    if u == sts[n].s && v == sts[n].o { assert Joins(sts, n, u, v); }
  }

  /** Adding a node keeps the graph valid, adds exactly that node and leaves the edges. */
  lemma TouchValid(g: DiGraph, n: string)
    requires Valid(g)
    ensures Valid(Touch(g, n))
    ensures forall x :: x in Touch(g, n).nodes <==> x in g.nodes || x == n
    ensures Touch(g, n).labels == g.labels && Touch(g, n).nodeType == g.nodeType
  {
    if n !in g.succ {
      var h := Touch(g, n);
      assert n !in g.nodes;
      assert h.nodes == g.nodes + [n];
      forall i, j | 0 <= i < j < |h.nodes| ensures h.nodes[i] != h.nodes[j] {
        if j == |g.nodes| { assert h.nodes[i] in g.nodes; }
      }
      assert NodesValid(h);
      forall u, v | u in h.succ && v in h.succ[u] ensures v in h.nodes && u != n {
        assert h.succ[u] == g.succ[u];
      }
      assert EdgesValid(h);
    }
  }

  /** Setting a node's type keeps the graph valid and its nodes. */
  lemma AddNodeValid(g: DiGraph, n: string, t: string)
    requires Valid(g)
    ensures Valid(AddNode(g, n, t))
    ensures forall x :: x in AddNode(g, n, t).nodes <==> x in g.nodes || x == n
  {
    TouchValid(g, n);
  }

  /** Adding an edge between nodes keeps the graph valid and its nodes. */
  lemma AddEdgeValid(g: DiGraph, u: string, v: string, l: string)
    requires Valid(g) && u in g.succ && v in g.succ
    ensures Valid(AddEdge(g, u, v, l)) && AddEdge(g, u, v, l).nodes == g.nodes
  {
    var h := AddEdge(g, u, v, l);
    assert Touch(Touch(g, u), v) == g;
    if (u, v) !in g.labels {
      assert v !in g.succ[u];
      assert NodesValid(h);
      forall x | x in h.succ ensures Distinct(h.succ[x]) {
        if x == u {
          forall i, j | 0 <= i < j < |h.succ[u]| ensures h.succ[u][i] != h.succ[u][j] {
            if j == |g.succ[u]| { assert h.succ[u][i] in g.succ[u]; }
          }
        }
      }
      assert EdgesValid(h);
    }
  }

  /** Adding a statement keeps the graph valid and adds its two strings as nodes. */
  lemma AddStatementValid(g: DiGraph, st: Statement)
    requires Valid(g)
    ensures Valid(AddStatement(g, st))
    ensures forall n :: n in AddStatement(g, st).nodes <==> n in g.nodes || n == st.s || n == st.o
  {
    var h1 := AddNode(g, st.s, "subject");
    AddNodeValid(g, st.s, "subject");
    AddNodeValid(h1, st.o, "object");
    AddEdgeValid(AddNode(h1, st.o, "object"), st.s, st.o, st.p);
  }

  /** Adding a statement sets its edge's label and its nodes' types, and no other. */
  lemma AddStatementMaps(g: DiGraph, st: Statement)
    ensures AddStatement(g, st).labels == g.labels[(st.s, st.o) := st.p]
    ensures AddStatement(g, st).nodeType == g.nodeType[st.s := "subject"][st.o := "object"]
  { }

  /** The type a statement gives a string it mentions. */
  function TypeFrom(st: Statement, x: string): string {
    if st.o == x then "object" else "subject"
  }

  /** A statement types the strings it mentions and leaves the other types alone. */
  lemma TypeStep(g: DiGraph, st: Statement, x: string)
    ensures st.s == x || st.o == x ==>
      x in AddStatement(g, st).nodeType && AddStatement(g, st).nodeType[x] == TypeFrom(st, x)
    ensures st.s != x && st.o != x ==>
      (x in AddStatement(g, st).nodeType <==> x in g.nodeType)
      && (x in g.nodeType ==> AddStatement(g, st).nodeType[x] == g.nodeType[x])
  {
    AddStatementMaps(g, st);
  }

  /** The built graph is valid and its nodes are exactly the strings the statements mention. */
  lemma {:induction false} BuildNodes(sts: seq<Statement>)
    ensures Valid(Build(sts))
    ensures forall n :: n in Build(sts).nodes <==> Mentioned(sts, n)
  {
    if |sts| > 0 {
      var n := |sts| - 1;
      var front := sts[..n];
      BuildNodes(front);
      AddStatementValid(Build(front), sts[n]);
      forall x ensures x in Build(sts).nodes <==> Mentioned(sts, x) {
        MentionedStep(sts, x);
      }
    }
  }

  /** The edges of the built graph are exactly the pairs the statements join. */
  lemma {:induction false} BuildEdges(sts: seq<Statement>)
    ensures forall u, v :: (u, v) in Build(sts).labels <==> Joined(sts, u, v)
  {
    if |sts| > 0 {
      var n := |sts| - 1;
      var front := sts[..n];
      BuildEdges(front);
      AddStatementMaps(Build(front), sts[n]);
      forall u, v ensures (u, v) in Build(sts).labels <==> Joined(sts, u, v) {
        JoinedStep(sts, u, v);
      }
    }
  }

  /** Statement `i` is the last one joining `u` to `v`. */
  ghost predicate LastJoin(sts: seq<Statement>, i: int, u: string, v: string) {
    Joins(sts, i, u, v) && forall j :: i < j < |sts| ==> !Joins(sts, j, u, v)
  }

  /** Statement `i` is the last one mentioning `x`. */
  ghost predicate LastMention(sts: seq<Statement>, i: int, x: string) {
    Mentions(sts, i, x) && forall j :: i < j < |sts| ==> !Mentions(sts, j, x)
  }

  /** The last statement joining a pair before a statement that does not join it stays last. */
  lemma LastJoinStep(sts: seq<Statement>, i: int, u: string, v: string)
    requires |sts| > 0 && !Joins(sts, |sts| - 1, u, v) && LastJoin(sts[..|sts| - 1], i, u, v)
    ensures LastJoin(sts, i, u, v)
  {
    var n := |sts| - 1;
    forall j | i < j < |sts| ensures !Joins(sts, j, u, v) {
      if j < n { assert !Joins(sts[..n], j, u, v); }
    }
  }

  /** The last statement mentioning a string before a statement that does not mention it stays
      last. */
  lemma LastMentionStep(sts: seq<Statement>, i: int, x: string)
    requires |sts| > 0 && !Mentions(sts, |sts| - 1, x) && LastMention(sts[..|sts| - 1], i, x)
    ensures LastMention(sts, i, x)
  {
    var n := |sts| - 1;
    forall j | i < j < |sts| ensures !Mentions(sts, j, x) {
      if j < n { assert !Mentions(sts[..n], j, x); }
    }
  }

  /** An edge's label is the predicate of the last statement joining its end points. */
  lemma {:induction false} BuildLabelLastWins(sts: seq<Statement>, u: string, v: string)
    requires (u, v) in Build(sts).labels
    ensures exists i :: LastJoin(sts, i, u, v) && Build(sts).labels[(u, v)] == sts[i].p
  {
    var n := |sts| - 1;
    var front := sts[..n];
    AddStatementMaps(Build(front), sts[n]);
    if Joins(sts, n, u, v) {
      assert LastJoin(sts, n, u, v);
    } else {
      BuildLabelLastWins(front, u, v);
      var i :| LastJoin(front, i, u, v) && Build(front).labels[(u, v)] == front[i].p;
      LastJoinStep(sts, i, u, v);
      assert front[i] == sts[i];
      assert Build(sts).labels[(u, v)] == Build(front).labels[(u, v)];
    }
  }

  /** A node's type is set by the last statement mentioning it: "object" when the node is that
      statement's object, "subject" otherwise. */
  lemma {:induction false} BuildTypeLastWins(sts: seq<Statement>, x: string)
    requires Mentioned(sts, x)
    ensures x in Build(sts).nodeType
    ensures exists i :: LastMention(sts, i, x) && Build(sts).nodeType[x] == TypeFrom(sts[i], x)
  {
    var n := |sts| - 1;
    var front := sts[..n];
    TypeStep(Build(front), sts[n], x);
    if Mentions(sts, n, x) {
      assert LastMention(sts, n, x);
    } else {
      MentionedStep(sts, x);
      BuildTypeLastWins(front, x);
      var i :| LastMention(front, i, x) && Build(front).nodeType[x] == TypeFrom(front[i], x);
      LastMentionStep(sts, i, x);
      assert front[i] == sts[i];
    }
  }

  /** Each statement adds at most one edge. */
  lemma {:induction false} BuildSize(sts: seq<Statement>)
    ensures |Build(sts).labels| <= |sts|
  {
    if |sts| > 0 {
      var n := |sts| - 1;
      var g := Build(sts[..n]);
      BuildSize(sts[..n]);
      AddStatementMaps(g, sts[n]);
      assert Build(sts).labels.Keys == g.labels.Keys + {(sts[n].s, sts[n].o)};
    }
  }

  // ------------------------------------------------------------------ export

  datatype NodeRecord = NodeRecord(id: string, nodeType: string)

  datatype EdgeRecord = EdgeRecord(source: string, target: string, edgeLabel: string)

  /** The data `export_to_json` writes. */
  datatype GraphJson = GraphJson(nodes: seq<NodeRecord>, edges: seq<EdgeRecord>)

  /** `nodes[n].get('type', 'unknown')`. */
  function TypeOf(g: DiGraph, n: string): string {
    if n in g.nodeType then g.nodeType[n] else "unknown"
  }

  /** The edges in the order networkx lists them: by source node, then by successor order. */
  function EdgePairs(g: DiGraph, ns: seq<string>): seq<Pair>
    requires forall n :: n in ns ==> n in g.succ
  {
    if |ns| == 0 then []
    else
      var u := ns[0];
      seq(|g.succ[u]|, j requires 0 <= j < |g.succ[u]| => (u, g.succ[u][j])) + EdgePairs(g, ns[1..])
  }

  /** `export_to_json`: one record per node with its type, one per edge with its label. */
  function ExportToJson(g: DiGraph): (j: GraphJson)
    requires Valid(g)
    ensures |j.nodes| == |g.nodes| && |j.edges| == |g.labels|
  {
    var pairs := EdgePairs(g, g.nodes);
    EdgePairsExactly(g, g.nodes);
    EdgePairsCount(g);
    GraphJson(
      seq(|g.nodes|, i requires 0 <= i < |g.nodes| => NodeRecord(g.nodes[i], TypeOf(g, g.nodes[i]))),
      seq(|pairs|, k requires 0 <= k < |pairs| => EdgeRecord(pairs[k].0, pairs[k].1, g.labels[pairs[k]])))
  }

  /** The listed edges from distinct nodes are exactly the edges out of those nodes, each once. */
  lemma {:induction false} EdgePairsExactly(g: DiGraph, ns: seq<string>)
    requires Valid(g)
    requires forall n :: n in ns ==> n in g.succ
    ensures forall u, v :: (u, v) in EdgePairs(g, ns) <==> u in ns && (u, v) in g.labels
    ensures Distinct(ns) ==> Distinct(EdgePairs(g, ns))
  {
    if |ns| > 0 {
      var u := ns[0];
      var head := seq(|g.succ[u]|, j requires 0 <= j < |g.succ[u]| => (u, g.succ[u][j]));
      var tail := EdgePairs(g, ns[1..]);
      EdgePairsExactly(g, ns[1..]);
      assert EdgePairs(g, ns) == head + tail;
      forall x, y ensures (x, y) in head <==> x == u && (x, y) in g.labels {
        if x == u && (x, y) in g.labels {
          var j :| 0 <= j < |g.succ[u]| && g.succ[u][j] == y;
          assert head[j] == (x, y);
        }
      }
      forall x | x in ns ensures x == u || x in ns[1..] {
        var i :| 0 <= i < |ns| && ns[i] == x;
        if i > 0 { assert ns[1..][i - 1] == x; }
      }
      if Distinct(ns) {
        assert u !in ns[1..];
        assert Distinct(ns[1..]);
        assert Distinct(head);
        DistinctAppend(head, tail);
      }
    }
  }

  /** Two lists without repeats and without common elements concatenate without repeats. */
  lemma DistinctAppend<T>(a: seq<T>, b: seq<T>)
    requires Distinct(a) && Distinct(b)
    requires forall x :: x in a ==> x !in b
    ensures Distinct(a + b)
  {
    var c := a + b;
    forall i, j | 0 <= i < j < |c| ensures c[i] != c[j] {
      if i < |a| && j >= |a| {
        assert c[i] in a && c[j] == b[j - |a|];
      }
    }
  }

  /** The export lists each node once with its type ("unknown" when it has none) and each edge
      once with its label; there are as many edge records as edges. */
  lemma ExportExactly(g: DiGraph)
    requires Valid(g)
    ensures var j := ExportToJson(g);
      |j.nodes| == |g.nodes|
      && (forall i :: 0 <= i < |j.nodes| ==> j.nodes[i] == NodeRecord(g.nodes[i], TypeOf(g, g.nodes[i])))
      && (forall u, v, l :: EdgeRecord(u, v, l) in j.edges <==> (u, v) in g.labels && l == g.labels[(u, v)])
      && Distinct(j.edges)
      && |j.edges| == |g.labels|
  {
    var pairs := EdgePairs(g, g.nodes);
    var j := ExportToJson(g);
    EdgePairsExactly(g, g.nodes);
    forall u, v, l ensures EdgeRecord(u, v, l) in j.edges <==> (u, v) in g.labels && l == g.labels[(u, v)] {
      if EdgeRecord(u, v, l) in j.edges {
        var k :| 0 <= k < |j.edges| && j.edges[k] == EdgeRecord(u, v, l);
        assert pairs[k] == (u, v);
      }
      if (u, v) in g.labels && l == g.labels[(u, v)] {
        assert (u, v) in pairs;
        var k :| 0 <= k < |pairs| && pairs[k] == (u, v);
        assert j.edges[k] == EdgeRecord(u, v, l);
      }
    }
    forall a, b | 0 <= a < b < |j.edges| ensures j.edges[a] != j.edges[b] {
      assert pairs[a] != pairs[b];
    }
  }

  /** The edge list of a valid graph has one pair per edge. */
  lemma EdgePairsCount(g: DiGraph)
    requires Valid(g)
    ensures |EdgePairs(g, g.nodes)| == |g.labels|
  {
    var pairs := EdgePairs(g, g.nodes);
    EdgePairsExactly(g, g.nodes);
    forall p: Pair ensures p in pairs <==> p in g.labels {
      assert p == (p.0, p.1);
    }
    assert (set p | p in pairs) == g.labels.Keys;
    DistinctCard(pairs);
  }

  /** The node records name exactly the strings the statements mention, each typed "subject"
      or "object". */
  ghost predicate NodesRecorded(j: GraphJson, sts: seq<Statement>) {
    && (forall i :: 0 <= i < |j.nodes| ==> Mentioned(sts, j.nodes[i].id))
    && (forall x :: Mentioned(sts, x) ==> exists i :: 0 <= i < |j.nodes| && j.nodes[i].id == x)
    && (forall i :: 0 <= i < |j.nodes| ==> j.nodes[i].nodeType in {"subject", "object"})
  }

  /** The node records of a valid graph whose nodes are the strings some statements mention,
      each typed "subject" or "object". */
  lemma ExportNodesOf(g: DiGraph, sts: seq<Statement>)
    requires Valid(g)
    requires forall n :: n in g.nodes <==> Mentioned(sts, n)
    requires forall n :: n in g.nodes ==> n in g.nodeType && g.nodeType[n] in {"subject", "object"}
    ensures NodesRecorded(ExportToJson(g), sts)
  {
    ExportExactly(g);
    var j := ExportToJson(g);
    forall i | 0 <= i < |j.nodes| ensures Mentioned(sts, j.nodes[i].id) {
      assert g.nodes[i] in g.nodes;
    }
    forall x | Mentioned(sts, x) ensures exists i :: 0 <= i < |j.nodes| && j.nodes[i].id == x {
      var i :| 0 <= i < |g.nodes| && g.nodes[i] == x;
      assert j.nodes[i].id == x;
    }
  }

  /** Every node of a built graph is typed "subject" or "object". */
  lemma BuildTyped(sts: seq<Statement>)
    ensures forall n :: n in Build(sts).nodes ==>
      n in Build(sts).nodeType && Build(sts).nodeType[n] in {"subject", "object"}
  {
    BuildNodes(sts);
    forall x | x in Build(sts).nodes
      ensures x in Build(sts).nodeType && Build(sts).nodeType[x] in {"subject", "object"}
    {
      BuildTypeLastWins(sts, x);
      var i :| LastMention(sts, i, x) && Build(sts).nodeType[x] == TypeFrom(sts[i], x);
    }
  }

  /** After building from a graph's triples, the export has a node record for exactly the
      strings the triples mention, each typed "subject" or "object". */
  lemma ExportNodesOfStatements(sts: seq<Statement>)
    ensures Valid(Build(sts))
    ensures NodesRecorded(ExportToJson(Build(sts)), sts)
  {
    BuildNodes(sts);
    BuildTyped(sts);
    ExportNodesOf(Build(sts), sts);
  }

  /** After building from a graph's triples, every triple's subject and object are joined by one
      edge record, and there are never more edge records than triples. */
  lemma ExportEdgesOfStatements(sts: seq<Statement>)
    ensures Valid(Build(sts))
    ensures forall i :: 0 <= i < |sts| ==> (sts[i].s, sts[i].o) in Build(sts).labels
    ensures var j := ExportToJson(Build(sts));
      (forall i :: 0 <= i < |sts| ==> EdgeRecord(sts[i].s, sts[i].o, Build(sts).labels[(sts[i].s, sts[i].o)]) in j.edges)
      && |j.edges| <= |sts|
  {
    var g := Build(sts);
    BuildNodes(sts);
    BuildEdges(sts);
    ExportExactly(g);
    BuildSize(sts);
    forall i | 0 <= i < |sts| ensures (sts[i].s, sts[i].o) in g.labels {
      assert Joins(sts, i, sts[i].s, sts[i].o);
      assert Joined(sts, sts[i].s, sts[i].o);
    }
  }
}
