/** The call graph of a class: an anchor node with an edge to every method,
    and an edge from each method to every method it accesses on `self`; and
    the distance column computed on it. */
module CallGraph {
  import opened ClassBody
  import opened CallGraphTable
  import opened Digraph

  /** The node list after adding the root and then the methods of the first
      `n` rows; a name seen before adds nothing. */
  function CallGraphNodes(root: Vertex, names: seq<string>, n: nat): seq<Vertex>
    requires n <= |names|
  {
    if n == 0 then [root] else AppendNew(CallGraphNodes(root, names, n - 1), Method(names[n - 1]))
  }

  /** The nodes are the root and the methods of the first `n` rows, nothing else. */
  lemma {:induction false} CallGraphNodesMembers(root: Vertex, names: seq<string>, n: nat, x: Vertex)
    requires n <= |names|
    ensures x in CallGraphNodes(root, names, n) <==> x == root || exists i :: 0 <= i < n && x == Method(names[i])
  {
    if n > 0 {
      CallGraphNodesMembers(root, names, n - 1, x);
    }
  }

  /** The root and every method are nodes of the call graph. */
  lemma NodesOfCallGraph(root: Vertex, names: seq<string>, c: string)
    ensures root in CallGraphNodes(root, names, |names|)
    ensures c in names ==> Method(c) in CallGraphNodes(root, names, |names|)
  {
    CallGraphNodesMembers(root, names, |names|, root);
    if c in names {
      var j :| 0 <= j < |names| && names[j] == c;
      CallGraphNodesMembers(root, names, |names|, Method(c));
    }
  }

  /** The method nodes named in `names`. */
  function Lift(names: set<string>): (r: set<Vertex>)
    ensures forall w :: w in r <==> w.Method? && w.name in names
  {
    set c | c in names :: Method(c)
  }

  /** The successors of `v` once the edges of the first `n` rows are added:
      the anchor gains the row's method, the row's method gains its used
      methods. */
  function SuccUpTo(root: Vertex, names: seq<string>, used: seq<set<string>>, v: Vertex, n: nat): set<Vertex>
    requires n <= |names| && n <= |used|
  {
    if n == 0 then {}
    else
      SuccUpTo(root, names, used, v, n - 1)
      + (if v == root then {Method(names[n - 1])} else {})
      + (if v == Method(names[n - 1]) then Lift(used[n - 1]) else {})
  }

  lemma {:induction false} SuccUpToExactly(root: Vertex, names: seq<string>, used: seq<set<string>>, v: Vertex, n: nat, w: Vertex)
    requires n <= |names| && n <= |used|
    ensures w in SuccUpTo(root, names, used, v, n) <==>
      (v == root && exists i :: 0 <= i < n && w == Method(names[i]))
      || (exists i :: 0 <= i < n && v == Method(names[i]) && w.Method? && w.name in used[i])
  {
    if n > 0 {
      SuccUpToExactly(root, names, used, v, n - 1, w);
    }
  }

  /** The graph built from the table's `func_name` and `used_functions`
      columns with the given root node. */
  function CallGraphOf(root: Vertex, names: seq<string>, used: seq<set<string>>): Graph
    requires |used| == |names|
  {
    var nodes := CallGraphNodes(root, names, |names|);
    Graph(nodes, map v | v in nodes :: SuccUpTo(root, names, used, v, |names|))
  }

  /** Every node of `adj` has exactly the successors the first `n` rows give it. */
  ghost predicate EdgesSoFar(adj: map<Vertex, set<Vertex>>, root: Vertex, names: seq<string>, used: seq<set<string>>, n: nat)
    requires n <= |names| && n <= |used|
  {
    forall v :: v in adj ==> adj[v] == SuccUpTo(root, names, used, v, n)
  }

  lemma NodeStep(adj: map<Vertex, set<Vertex>>, root: Vertex, names: seq<string>, used: seq<set<string>>, v: Vertex)
    requires EdgesSoFar(adj, root, names, used, 0)
    ensures EdgesSoFar(WithNode(adj, v), root, names, used, 0)
  {
  }

  /** The edges of row `n`: the root to the row's method, then the method to
      each method it uses. */
  lemma RowStep(adj: map<Vertex, set<Vertex>>, root: Vertex, names: seq<string>, used: seq<set<string>>, n: nat)
    requires n < |names| && n < |used| && root in adj && Method(names[n]) in adj
    requires EdgesSoFar(adj, root, names, used, n)
    ensures var name := Method(names[n]);
      var a := adj[root := adj[root] + {name}];
      EdgesSoFar(a[name := a[name] + Lift(used[n])], root, names, used, n + 1)
  {
  }

  /** Once every row is added, the graph is the call graph. */
  lemma AllRowsDone(nodes: seq<Vertex>, adj: map<Vertex, set<Vertex>>, root: Vertex, names: seq<string>, used: seq<set<string>>)
    requires |used| == |names|
    requires nodes == CallGraphNodes(root, names, |names|)
    requires forall v :: v in adj <==> v in nodes
    requires EdgesSoFar(adj, root, names, used, |names|)
    ensures Graph(nodes, adj) == CallGraphOf(root, names, used)
  {
    var m := map v | v in nodes :: SuccUpTo(root, names, used, v, |names|);
    assert adj.Keys == m.Keys;
    forall v | v in adj ensures adj[v] == m[v] {
      assert adj[v] == SuccUpTo(root, names, used, v, |names|);
    }
    assert adj == m;
  }

  /** Adds an edge from `name` to each method of `called`, in any order. */
  method AddCallEdges(g: DiGraph, name: Vertex, called: set<string>)
    requires g.Valid() && name in g.nodes
    requires forall c :: c in called ==> Method(c) in g.nodes
    modifies g
    ensures g.Valid() && g.nodes == old(g.nodes)
    ensures g.adj == old(g.adj)[name := old(g.adj)[name] + Lift(called)]
  {
    var rest := called;
    assert g.adj[name] + Lift(called - rest) == g.adj[name];
    assert g.adj == g.adj[name := g.adj[name]];
    while rest != {}
      invariant rest <= called
      invariant g.Valid() && g.nodes == old(g.nodes)
      invariant g.adj == old(g.adj)[name := old(g.adj)[name] + Lift(called - rest)]
      decreases rest
    {
      var calledFunc :| calledFunc in rest;
      ghost var done := called - rest;
      assert Lift(done + {calledFunc}) == Lift(done) + {Method(calledFunc)};
      ghost var before := g.adj;
      g.AddEdge(name, Method(calledFunc));
      assert g.adj == before[name := before[name] + {Method(calledFunc)}];
      assert before[name] + {Method(calledFunc)} == old(g.adj)[name] + Lift(done + {calledFunc});
      assert g.adj == old(g.adj)[name := old(g.adj)[name] + Lift(done + {calledFunc})];
      assert (called - rest) + {calledFunc} == called - (rest - {calledFunc});
      rest := rest - {calledFunc};
    }
    assert called - rest == called;
  }

  /** The first loop: every method of the table becomes a node. */
  method AddMethodNodes(g: DiGraph, root: Vertex, names: seq<string>, used: seq<set<string>>)
    requires |used| == |names|
    requires g.Valid() && g.nodes == [root] && EdgesSoFar(g.adj, root, names, used, 0)
    modifies g
    ensures g.Valid() && g.nodes == CallGraphNodes(root, names, |names|)
    ensures EdgesSoFar(g.adj, root, names, used, 0)
  {
    for i := 0 to |names|
      invariant g.Valid() && g.nodes == CallGraphNodes(root, names, i)
      invariant EdgesSoFar(g.adj, root, names, used, 0)
    {
      NodeStep(g.adj, root, names, used, Method(names[i]));
      g.AddNode(Method(names[i]));
    }
  }

  /** Every method of the table is a node. */
  ghost predicate HasMethodNodes(nodes: seq<Vertex>, names: seq<string>)
  {
    forall c :: c in names ==> Method(c) in nodes
  }

  /** Every used name is a method of the table. */
  ghost predicate UsesOnlyMethods(names: seq<string>, used: seq<set<string>>)
  {
    forall i, c :: 0 <= i < |used| && c in used[i] ==> c in names
  }

  /** The body of the second loop for row `i`. */
  method AddRow(g: DiGraph, root: Vertex, names: seq<string>, used: seq<set<string>>, i: nat)
    requires i < |names| == |used|
    requires forall c :: c in used[i] ==> c in names
    requires g.Valid() && root in g.nodes && HasMethodNodes(g.nodes, names)
    requires EdgesSoFar(g.adj, root, names, used, i)
    modifies g
    ensures g.Valid() && g.nodes == old(g.nodes)
    ensures EdgesSoFar(g.adj, root, names, used, i + 1)
  {
    var name := Method(names[i]);
    RowStep(g.adj, root, names, used, i);
    g.AddEdge(root, name);
    AddCallEdges(g, name, used[i]);
  }

  /** The second loop: for each row, the edge from the root to the method and
      the edges from the method to the methods it uses. */
  method AddRowEdges(g: DiGraph, root: Vertex, names: seq<string>, used: seq<set<string>>)
    requires |used| == |names|
    requires UsesOnlyMethods(names, used)
    requires g.Valid() && root in g.nodes && HasMethodNodes(g.nodes, names)
    requires EdgesSoFar(g.adj, root, names, used, 0)
    modifies g
    ensures g.Valid() && g.nodes == old(g.nodes)
    ensures EdgesSoFar(g.adj, root, names, used, |names|)
  {
    for i := 0 to |names|
      invariant g.Valid() && g.nodes == old(g.nodes)
      invariant EdgesSoFar(g.adj, root, names, used, i)
    {
      AddRow(g, root, names, used, i);
    }
  }

  /** Builds the call graph: the root, then every method as a node, then for
      each row an edge from the root to the method and an edge from the method
      to each method it uses. */
  method CreateDirectedCallGraph(df: FuncFrame, root: Vertex) returns (g: DiGraph)
    requires |df.usedFunctions| == |df.funcName|
    requires forall i, c :: 0 <= i < |df.usedFunctions| && c in df.usedFunctions[i] ==> c in df.funcName
    ensures fresh(g) && g.Valid()
    ensures g.Value() == CallGraphOf(root, df.funcName, df.usedFunctions)
  {
    var names, used := df.funcName, df.usedFunctions;
    g := new DiGraph();
    NodeStep(g.adj, root, names, used, root);
    g.AddNode(root);
    AddMethodNodes(g, root, names, used);
    forall c | c in names ensures Method(c) in g.nodes {
      NodesOfCallGraph(root, names, c);
    }
    NodesOfCallGraph(root, names, "");
    AddRowEdges(g, root, names, used);
    AllRowsDone(g.nodes, g.adj, root, names, used);
  }

  /** Every method of the table is reached from the root by a simple path. */
  ghost predicate AllReached(g: Graph, root: Vertex, names: seq<string>)
  {
    forall i :: 0 <= i < |names| ==> LongestSimplePath(g, root, Method(names[i])).Some?
  }

  /** The `distance` column: for each row, the number of edges of the longest
      simple path from the root to the row's method. */
  function Distances(g: Graph, root: Vertex, names: seq<string>): (r: seq<nat>)
    requires AllReached(g, root, names)
    ensures |r| == |names|
  {
    seq(|names|, i requires 0 <= i < |names| => LongestSimplePath(g, root, Method(names[i])).value)
  }

  lemma DistancesAt(g: Graph, root: Vertex, names: seq<string>, i: nat)
    requires AllReached(g, root, names) && i < |names|
    ensures Some(Distances(g, root, names)[i]) == LongestSimplePath(g, root, Method(names[i]))
  {
  }

  /** Writes the `distance` column in place. When some method has no simple
      path from the root the maximum over no paths fails: `ok` is false and the
      table is left as it was. */
  method AddDistances(df: FuncFrame, g: DiGraph, root: Vertex) returns (ok: bool)
    modifies df
    ensures ok <==> AllReached(g.Value(), root, df.funcName)
    ensures ok ==> df.distance == Distances(g.Value(), root, df.funcName)
    ensures !ok ==> df.distance == old(df.distance)
    ensures df.funcName == old(df.funcName) && df.node == old(df.node)
    ensures df.usedObjects == old(df.usedObjects) && df.usedFunctions == old(df.usedFunctions)
  {
    var names, graph := df.funcName, g.Value();
    var found := seq(|names|, i requires 0 <= i < |names| => LongestSimplePath(graph, root, Method(names[i])));
    ok := forall i | 0 <= i < |found| :: found[i].Some?;
    assert ok <==> AllReached(graph, root, names) by {
      assert forall i :: 0 <= i < |names| ==> found[i] == LongestSimplePath(graph, root, Method(names[i]));
    }
    if ok {
      df.distance := seq(|found|, i requires 0 <= i < |found| && found[i].Some? => found[i].value);
    }
  }
}
