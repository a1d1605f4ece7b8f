/** What the distance of a method from the anchor means for the call graph
    of a class: its edges in terms of the method bodies, and the bounds and
    orderings of the longest simple paths on it. */
module CallGraphDistances {
  import opened ClassBody
  import opened CallGraphTable
  import opened Digraph
  import opened CallGraph

  /** The call graph of a list of function definitions, rooted at the anchor. */
  function MethodGraph(fns: seq<Member>): Graph
    requires AllFunctions(fns)
  {
    var names := Names(fns);
    CallGraphOf(Anchor, names, UsedFunctions(names, UsedObjects(fns)))
  }

  /** The distance of the method `name` from the anchor, if there is a path. */
  function Distance(fns: seq<Member>, name: string): Option<nat>
    requires AllFunctions(fns)
  {
    LongestSimplePath(MethodGraph(fns), Anchor, Method(name))
  }

  /** Some definition named `a` accesses `self.b`, and `b` names a method. */
  ghost predicate Calls(fns: seq<Member>, a: string, b: string)
    requires AllFunctions(fns)
  {
    && (exists i :: 0 <= i < |fns| && fns[i].name == a && Access(Name("self"), b) in fns[i].accesses)
    && b in Names(fns)
  }

  // ---------------------------------------------------------------------
  // The shape of the graph.

  lemma MethodGraphNodes(fns: seq<Member>, v: Vertex)
    requires AllFunctions(fns)
    ensures v in MethodGraph(fns).nodes <==> v == Anchor || (v.Method? && v.name in Names(fns))
  {
    var names := Names(fns);
    CallGraphNodesMembers(Anchor, names, |names|, v);
    if v.Method? && v.name in names {
      var j :| 0 <= j < |names| && names[j] == v.name;
      assert v == Method(names[j]);
    }
  }

  /** The anchor has an edge to every method and to nothing else. */
  lemma AnchorEdges(fns: seq<Member>, w: Vertex)
    requires AllFunctions(fns)
    ensures MethodGraph(fns).Edge(Anchor, w) <==> w.Method? && w.name in Names(fns)
  {
    var names := Names(fns);
    var used := UsedFunctions(names, UsedObjects(fns));
    NodesOfCallGraph(Anchor, names, "");
    SuccUpToExactly(Anchor, names, used, Anchor, |names|, w);
    if w.Method? && w.name in names {
      var j :| 0 <= j < |names| && names[j] == w.name;
      assert w == Method(names[j]);
    }
  }

  /** No edge ends at the anchor. */
  lemma NoEdgeIntoAnchor(fns: seq<Member>, v: Vertex)
    requires AllFunctions(fns)
    ensures !MethodGraph(fns).Edge(v, Anchor)
  {
    var names := Names(fns);
    SuccUpToExactly(Anchor, names, UsedFunctions(names, UsedObjects(fns)), v, |names|, Anchor);
  }

  /** An edge between two methods is exactly a call of one by the other. */
  lemma MethodEdges(fns: seq<Member>, a: string, b: string)
    requires AllFunctions(fns)
    ensures MethodGraph(fns).Edge(Method(a), Method(b)) <==> Calls(fns, a, b)
  {
    var g := MethodGraph(fns);
    var names := Names(fns);
    var objects := UsedObjects(fns);
    var used := UsedFunctions(names, objects);
    SuccUpToExactly(Anchor, names, used, Method(a), |names|, Method(b));
    if g.Edge(Method(a), Method(b)) {
      var i :| 0 <= i < |names| && Method(a) == Method(names[i]) && b in used[i];
      UsedFunctionsExactly(names, objects, i, b);
      SelfReferencesExactly(fns[i].accesses, b);
      var k :| 0 <= k < |fns[i].accesses| && fns[i].accesses[k] == Access(Name("self"), b);
      assert Access(Name("self"), b) in fns[i].accesses;
    }
    if Calls(fns, a, b) {
      var i :| 0 <= i < |fns| && fns[i].name == a && Access(Name("self"), b) in fns[i].accesses;
      var k :| 0 <= k < |fns[i].accesses| && fns[i].accesses[k] == Access(Name("self"), b);
      SelfReferencesExactly(fns[i].accesses, b);
      UsedFunctionsExactly(names, objects, i, b);
      MethodGraphNodes(fns, Method(a));
    }
  }

  /** Every edge ends at a node. */
  lemma MethodGraphClosed(fns: seq<Member>)
    requires AllFunctions(fns)
    ensures MethodGraph(fns).Closed()
  {
    var g := MethodGraph(fns);
    var names := Names(fns);
    var objects := UsedObjects(fns);
    var used := UsedFunctions(names, objects);
    forall u, v | g.Edge(u, v) ensures v in g.nodes {
      SuccUpToExactly(Anchor, names, used, u, |names|, v);
      if exists i :: 0 <= i < |names| && u == Method(names[i]) && v.Method? && v.name in used[i] {
        var i :| 0 <= i < |names| && u == Method(names[i]) && v.Method? && v.name in used[i];
        UsedFunctionsExactly(names, objects, i, v.name);
      }
      MethodGraphNodes(fns, v);
    }
  }

  // ---------------------------------------------------------------------
  // Distances.

  /** Every method is reached from the anchor, at distance at least one (the
      direct edge from the anchor is itself a simple path). */
  lemma DistanceAtLeastOne(fns: seq<Member>, name: string)
    requires AllFunctions(fns) && name in Names(fns)
    ensures Distance(fns, name).Some? && Distance(fns, name).value >= 1
  {
    var g := MethodGraph(fns);
    MethodGraphClosed(fns);
    AnchorEdges(fns, Method(name));
    var p := [Anchor, Method(name)];
    assert IsSimplePathOf(g, p, Anchor, Method(name));
    LongestSimplePathCorrect(g, Anchor, Method(name));
  }

  /** The distance column of a whole table is defined. */
  lemma AllMethodsReached(fns: seq<Member>)
    requires AllFunctions(fns)
    ensures AllReached(MethodGraph(fns), Anchor, Names(fns))
  {
    forall i | 0 <= i < |fns| ensures Distance(fns, Names(fns)[i]).Some? {
      DistanceAtLeastOne(fns, Names(fns)[i]);
    }
  }

  lemma {:induction false} LiftSize(names: set<string>)
    ensures |Lift(names)| == |names|
    decreases |names|
  {
    if names != {} {
      var c :| c in names;
      LiftSize(names - {c});
      assert Lift(names) == Lift(names - {c}) + {Method(c)};
    }
  }

  /** A path visits each method at most once, so no distance exceeds the
      number of distinct method names. */
  lemma DistanceAtMostMethodCount(fns: seq<Member>, name: string)
    requires AllFunctions(fns)
    ensures Distance(fns, name).Some? ==> Distance(fns, name).value <= |set n | n in Names(fns)|
  {
    var g := MethodGraph(fns);
    var methods := set n | n in Names(fns);
    LongestBound(g, Anchor, Method(name), {Anchor});
    forall v ensures v in g.NodeSet() - {Anchor} <==> v in Lift(methods) {
      MethodGraphNodes(fns, v);
    }
    assert g.NodeSet() - {Anchor} == Lift(methods);
    LiftSize(methods);
  }

  /** Two classes whose methods have the same names and the same calls
      between distinct methods have the same distances: a method calling
      itself changes nothing. */
  lemma SelfCallsIrrelevant(fns: seq<Member>, other: seq<Member>, name: string)
    requires AllFunctions(fns) && AllFunctions(other)
    requires forall n :: n in Names(fns) <==> n in Names(other)
    requires forall a, b :: a != b ==> (Calls(fns, a, b) <==> Calls(other, a, b))
    ensures Distance(fns, name) == Distance(other, name)
  {
    var g, h := MethodGraph(fns), MethodGraph(other);
    MethodGraphClosed(fns);
    MethodGraphClosed(other);
    forall x, y | x != y ensures g.Edge(x, y) <==> h.Edge(x, y) {
      if x == Anchor {
        AnchorEdges(fns, y);
        AnchorEdges(other, y);
      } else if y == Anchor {
        NoEdgeIntoAnchor(fns, x);
        NoEdgeIntoAnchor(other, x);
      } else {
        MethodEdges(fns, x.name, y.name);
        MethodEdges(other, x.name, y.name);
      }
    }
    LongestIgnoresSelfLoops(g, h, Anchor, Method(name));
  }

  /** A method's distance is at most one more than the largest distance of
      the other methods that call it. */
  lemma DistanceViaCallers(fns: seq<Member>, m: string, k: nat)
    requires AllFunctions(fns) && m in Names(fns)
    requires forall a :: a != m && Calls(fns, a, m) ==> Distance(fns, a).Some? && Distance(fns, a).value <= k
    ensures Distance(fns, m).Some? && Distance(fns, m).value <= k + 1
  {
    var g := MethodGraph(fns);
    DistanceAtLeastOne(fns, m);
    MethodGraphClosed(fns);
    forall w | w != Anchor && w != Method(m) && g.Edge(w, Method(m))
      ensures LongestSimplePath(g, Anchor, w).Some? && LongestSimplePath(g, Anchor, w).value <= k
    {
      MethodEdges(fns, w.name, m);
    }
    LongestViaPredecessors(g, Anchor, Method(m), k);
  }

  /** A method no other method calls sits at distance one. */
  lemma UnreferencedAtDistanceOne(fns: seq<Member>, m: string)
    requires AllFunctions(fns) && m in Names(fns)
    requires forall a :: a != m ==> !Calls(fns, a, m)
    ensures Distance(fns, m) == Some(1)
  {
    DistanceViaCallers(fns, m, 0);
    DistanceAtLeastOne(fns, m);
  }

  /** When `a` calls `b` and `b` cannot reach back to `a`, the callee is
      strictly farther from the anchor than the caller. */
  lemma CalleeDeeper(fns: seq<Member>, a: string, b: string)
    requires AllFunctions(fns) && a != b && Calls(fns, a, b)
    requires !Reaches(MethodGraph(fns), Method(b), Method(a))
    ensures Distance(fns, a).Some? && Distance(fns, b).Some?
    ensures Distance(fns, b).value > Distance(fns, a).value
  {
    MethodGraphClosed(fns);
    var i :| 0 <= i < |fns| && fns[i].name == a && Access(Name("self"), b) in fns[i].accesses;
    assert Names(fns)[i] == a;
    DistanceAtLeastOne(fns, a);
    MethodEdges(fns, a, b);
    LongestAcrossEdge(MethodGraph(fns), Anchor, Method(a), Method(b));
  }
}
