/** A directed graph of method names rooted at an anchor node, and the length
    of the longest simple path between two of its nodes. */
module Digraph {

  datatype Option<T> = None | Some(value: T)

  /** A node: the synthetic anchor, or the method with the given name. */
  datatype Vertex = Anchor | Method(name: string)

  /** A directed graph: its nodes in insertion order and the successors of
      each node. */
  datatype Graph = Graph(nodes: seq<Vertex>, adj: map<Vertex, set<Vertex>>)
  {
    function NodeSet(): set<Vertex>
    {
      set v | v in nodes
    }

    predicate Edge(u: Vertex, v: Vertex)
    {
      u in adj && v in adj[u]
    }

    /** Every edge ends at a node of the graph. */
    ghost predicate Closed()
    {
      forall u, v :: Edge(u, v) ==> v in nodes
    }
  }

  /** `p` is a path from `u` to `t` that repeats no node and, after its first
      node, avoids `visited`. */
  ghost predicate SimplePath(g: Graph, p: seq<Vertex>, u: Vertex, t: Vertex, visited: set<Vertex>)
  {
    && |p| >= 1 && p[0] == u && p[|p| - 1] == t
    && (forall i :: 0 <= i < |p| - 1 ==> g.Edge(p[i], p[i + 1]))
    && (forall i, j :: 0 <= i < j < |p| ==> p[i] != p[j])
    && (forall i :: 1 <= i < |p| ==> p[i] !in visited)
  }

  /** The number of edges of a longest simple path from `u` to `t` whose nodes
      after `u` avoid `visited`, or -1 when there is none. */
  function LongestFrom(g: Graph, u: Vertex, t: Vertex, visited: set<Vertex>): int
    decreases g.NodeSet() - visited, 1, 0
  {
    if u == t then 0 else BestAmong(g, u, t, visited, 0)
  }

  /** The best extension of a path at `u` through a successor among
      `g.nodes[k..]`, or -1 when none reaches `t`. */
  function BestAmong(g: Graph, u: Vertex, t: Vertex, visited: set<Vertex>, k: nat): int
    decreases g.NodeSet() - visited, 0, |g.nodes| - k
  {
    if k >= |g.nodes| then -1
    else
      var v := g.nodes[k];
      var rest := BestAmong(g, u, t, visited, k + 1);
      if g.Edge(u, v) && v !in visited then
        assert v in g.NodeSet();
        var d := LongestFrom(g, v, t, visited + {v});
        if d >= 0 && d + 1 > rest then d + 1 else rest
      else rest
  }

  /** The simple paths from `s` to `t`: none at all when `s == t`. */
  ghost predicate IsSimplePathOf(g: Graph, p: seq<Vertex>, s: Vertex, t: Vertex)
  {
    s != t && SimplePath(g, p, s, t, {s})
  }

  /** The length of the longest of the simple paths from `s` to `t`, or None
      when there is no such path (the maximum of nothing is an error). */
  function LongestSimplePath(g: Graph, s: Vertex, t: Vertex): Option<nat>
  {
    if s == t then None
    else
      var d := LongestFrom(g, s, t, {s});
      if d < 0 then None else Some(d)
  }

  // ---------------------------------------------------------------------
  // Soundness: the value found is the length of a simple path.

  lemma {:induction false} LongestSound(g: Graph, u: Vertex, t: Vertex, visited: set<Vertex>) returns (p: seq<Vertex>)
    requires u in visited && LongestFrom(g, u, t, visited) >= 0
    ensures SimplePath(g, p, u, t, visited) && |p| - 1 == LongestFrom(g, u, t, visited)
    decreases g.NodeSet() - visited, 1, 0
  {
    if u == t {
      p := [u];
    } else {
      p := BestSound(g, u, t, visited, 0);
    }
  }

  lemma {:induction false} BestSound(g: Graph, u: Vertex, t: Vertex, visited: set<Vertex>, k: nat) returns (p: seq<Vertex>)
    requires u in visited && BestAmong(g, u, t, visited, k) >= 0
    ensures SimplePath(g, p, u, t, visited) && |p| - 1 == BestAmong(g, u, t, visited, k)
    decreases g.NodeSet() - visited, 0, |g.nodes| - k
  {
    var v := g.nodes[k];
    var rest := BestAmong(g, u, t, visited, k + 1);
    if g.Edge(u, v) && v !in visited && LongestFrom(g, v, t, visited + {v}) >= 0
       && LongestFrom(g, v, t, visited + {v}) + 1 > rest {
      assert v in g.NodeSet();
      var q := LongestSound(g, v, t, visited + {v});
      p := [u] + q;
      forall i, j | 0 <= i < j < |p| ensures p[i] != p[j] {
        if i > 0 { assert p[i] == q[i - 1] && p[j] == q[j - 1]; }
        else { assert p[j] == q[j - 1] && q[j - 1] !in visited; }
      }
      forall i | 0 <= i < |p| - 1 ensures g.Edge(p[i], p[i + 1]) {
        if i > 0 { assert p[i] == q[i - 1] && p[i + 1] == q[i]; }
      }
    } else {
      p := BestSound(g, u, t, visited, k + 1);
    }
  }

  // ---------------------------------------------------------------------
  // Completeness: no simple path is longer than the value found.

  lemma {:induction false} BestAtLeast(g: Graph, u: Vertex, t: Vertex, visited: set<Vertex>, k: nat, m: nat)
    requires m < |g.nodes| && k <= m
    requires g.Edge(u, g.nodes[m]) && g.nodes[m] !in visited
    requires LongestFrom(g, g.nodes[m], t, visited + {g.nodes[m]}) >= 0
    ensures BestAmong(g, u, t, visited, k) >= LongestFrom(g, g.nodes[m], t, visited + {g.nodes[m]}) + 1
    decreases m - k
  {
    if k < m {
      BestAtLeast(g, u, t, visited, k + 1, m);
    }
  }

  lemma {:induction false} LongestComplete(g: Graph, p: seq<Vertex>, u: Vertex, t: Vertex, visited: set<Vertex>)
    requires g.Closed() && SimplePath(g, p, u, t, visited)
    ensures |p| - 1 <= LongestFrom(g, u, t, visited)
    decreases |p|
  {
    if u == t {
      assert p[0] == p[|p| - 1];
    } else {
      var v := p[1];
      var q := p[1..];
      assert SimplePath(g, q, v, t, visited + {v}) by {
        forall i | 1 <= i < |q| ensures q[i] !in visited + {v} {
          assert q[i] == p[i + 1] && p[i + 1] != p[1];
        }
        forall i | 0 <= i < |q| - 1 ensures g.Edge(q[i], q[i + 1]) {
          assert g.Edge(p[i + 1], p[i + 2]);
        }
      }
      LongestComplete(g, q, v, t, visited + {v});
      assert g.Edge(p[0], p[1]);
      var m :| 0 <= m < |g.nodes| && g.nodes[m] == v;
      BestAtLeast(g, u, t, visited, 0, m);
    }
  }

  /** The longest simple path from `s` to `t` is exactly what its name says:
      defined iff some simple path exists, the length of one of them, and at
      least the length of each of them. */
  lemma LongestSimplePathCorrect(g: Graph, s: Vertex, t: Vertex)
    requires g.Closed()
    ensures LongestSimplePath(g, s, t).Some? <==> exists p :: IsSimplePathOf(g, p, s, t)
    ensures LongestSimplePath(g, s, t).Some? ==>
      (exists p :: IsSimplePathOf(g, p, s, t) && |p| - 1 == LongestSimplePath(g, s, t).value)
    ensures forall p :: IsSimplePathOf(g, p, s, t) ==>
      LongestSimplePath(g, s, t).Some? && |p| - 1 <= LongestSimplePath(g, s, t).value
  {
    if s != t {
      if LongestFrom(g, s, t, {s}) >= 0 {
        var p := LongestSound(g, s, t, {s});
        assert IsSimplePathOf(g, p, s, t);
      }
      forall p | IsSimplePathOf(g, p, s, t)
        ensures LongestSimplePath(g, s, t).Some? && |p| - 1 <= LongestSimplePath(g, s, t).value
      {
        LongestComplete(g, p, s, t, {s});
      }
    }
  }

  // ---------------------------------------------------------------------
  // Bounds.

  /** A simple path can only use nodes not yet visited. */
  lemma {:induction false} LongestBound(g: Graph, u: Vertex, t: Vertex, visited: set<Vertex>)
    ensures LongestFrom(g, u, t, visited) <= |g.NodeSet() - visited|
    decreases g.NodeSet() - visited, 1, 0
  {
    if u != t {
      BestBound(g, u, t, visited, 0);
    }
  }

  lemma {:induction false} BestBound(g: Graph, u: Vertex, t: Vertex, visited: set<Vertex>, k: nat)
    ensures BestAmong(g, u, t, visited, k) <= |g.NodeSet() - visited|
    decreases g.NodeSet() - visited, 0, |g.nodes| - k
  {
    if k < |g.nodes| {
      var v := g.nodes[k];
      BestBound(g, u, t, visited, k + 1);
      if g.Edge(u, v) && v !in visited {
        assert v in g.NodeSet();
        LongestBound(g, v, t, visited + {v});
        assert g.NodeSet() - (visited + {v}) == (g.NodeSet() - visited) - {v};
      }
    }
  }

  // ---------------------------------------------------------------------
  // Only edges between distinct nodes matter.

  /** Two graphs that agree on every edge between distinct nodes have the
      same simple paths. */
  lemma SimplePathTransfer(g: Graph, h: Graph, p: seq<Vertex>, u: Vertex, t: Vertex, visited: set<Vertex>)
    requires forall x, y :: x != y ==> (g.Edge(x, y) <==> h.Edge(x, y))
    requires SimplePath(g, p, u, t, visited)
    ensures SimplePath(h, p, u, t, visited)
  {
    forall i | 0 <= i < |p| - 1 ensures h.Edge(p[i], p[i + 1]) {
      assert p[i] != p[i + 1];
    }
  }

  /** Self-loops never change a longest simple path. */
  lemma LongestIgnoresSelfLoops(g: Graph, h: Graph, s: Vertex, t: Vertex)
    requires g.Closed() && h.Closed()
    requires forall x, y :: x != y ==> (g.Edge(x, y) <==> h.Edge(x, y))
    ensures LongestSimplePath(g, s, t) == LongestSimplePath(h, s, t)
  {
    if s != t {
      var a, b := LongestFrom(g, s, t, {s}), LongestFrom(h, s, t, {s});
      if a >= 0 {
        var p := LongestSound(g, s, t, {s});
        SimplePathTransfer(g, h, p, s, t, {s});
        LongestComplete(h, p, s, t, {s});
      }
      if b >= 0 {
        var p := LongestSound(h, s, t, {s});
        SimplePathTransfer(h, g, p, s, t, {s});
        LongestComplete(g, p, s, t, {s});
      }
    }
  }

  // ---------------------------------------------------------------------
  // Longest paths through predecessors and successors.

  /** `y` can be reached from `x` by a simple path. */
  ghost predicate Reaches(g: Graph, x: Vertex, y: Vertex)
  {
    exists p :: SimplePath(g, p, x, y, {x})
  }

  /** A node is at most one edge farther from `s` than the farthest of its
      other predecessors. */
  lemma LongestViaPredecessors(g: Graph, s: Vertex, t: Vertex, k: nat)
    requires g.Closed() && LongestSimplePath(g, s, t).Some?
    requires forall w :: w != s && w != t && g.Edge(w, t) ==>
      LongestSimplePath(g, s, w).Some? && LongestSimplePath(g, s, w).value <= k
    ensures LongestSimplePath(g, s, t).value <= k + 1
  {
    var p := LongestSound(g, s, t, {s});
    if |p| > 2 {
      var w := p[|p| - 2];
      assert g.Edge(w, t);
      assert w != s by { assert p[0] != p[|p| - 2]; }
      var q := p[..|p| - 1];
      assert IsSimplePathOf(g, q, s, w) by {
        forall i | 0 <= i < |q| - 1 ensures g.Edge(q[i], q[i + 1]) {
          assert g.Edge(p[i], p[i + 1]);
        }
      }
      LongestSimplePathCorrect(g, s, w);
    }
  }

  /** Following an edge `u -> v` from which `u` cannot be reached again
      lengthens the longest path from `s`. */
  lemma LongestAcrossEdge(g: Graph, s: Vertex, u: Vertex, v: Vertex)
    requires g.Closed() && g.Edge(u, v) && u != v && v != s
    requires LongestSimplePath(g, s, u).Some? && !Reaches(g, v, u)
    ensures LongestSimplePath(g, s, v).Some?
    ensures LongestSimplePath(g, s, v).value > LongestSimplePath(g, s, u).value
  {
    var p := LongestSound(g, s, u, {s});
    if j :| 0 <= j < |p| && p[j] == v {
      var q := p[j..];
      assert SimplePath(g, q, v, u, {v}) by {
        forall x | 0 <= x < |q| - 1 ensures g.Edge(q[x], q[x + 1]) {
          assert g.Edge(p[j + x], p[j + x + 1]);
        }
        forall x | 1 <= x < |q| ensures q[x] != v {
          assert p[j + x] != p[j];
        }
      }
      assert false;
    }
    var r := p + [v];
    assert IsSimplePathOf(g, r, s, v) by {
      forall x | 0 <= x < |r| - 1 ensures g.Edge(r[x], r[x + 1]) {
        if x < |p| - 1 { assert g.Edge(p[x], p[x + 1]); }
      }
    }
    LongestSimplePathCorrect(g, s, v);
  }

  /** A path that starts inside a set of nodes no edge leaves stays inside it. */
  lemma {:induction false} PathStaysInside(g: Graph, inside: set<Vertex>, p: seq<Vertex>, n: nat)
    requires forall u, v :: u in inside && g.Edge(u, v) ==> v in inside
    requires |p| >= 1 && p[0] in inside && n < |p|
    requires forall i :: 0 <= i < |p| - 1 ==> g.Edge(p[i], p[i + 1])
    ensures p[n] in inside
  {
    if n > 0 {
      PathStaysInside(g, inside, p, n - 1);
      assert g.Edge(p[n - 1], p[n]);
    }
  }

  /** Nothing outside a set of nodes no edge leaves is reachable from inside it. */
  lemma NotReachedFromInside(g: Graph, inside: set<Vertex>, x: Vertex, y: Vertex)
    requires forall u, v :: u in inside && g.Edge(u, v) ==> v in inside
    requires x in inside && y !in inside
    ensures !Reaches(g, x, y)
  {
    forall p | SimplePath(g, p, x, y, {x}) ensures false {
      PathStaysInside(g, inside, p, |p| - 1);
    }
  }

  // ---------------------------------------------------------------------
  // The mutable graph the sorter builds, one node or edge at a time.

  /** `s` with `v` appended unless it is already there. */
  function AppendNew(s: seq<Vertex>, v: Vertex): (r: seq<Vertex>)
    ensures forall x :: x in r <==> x in s || x == v
    ensures v in s ==> r == s
  {
    if v in s then s else s + [v]
  }

  /** `adj` with `v` added, without successors, unless it is already there. */
  function WithNode(adj: map<Vertex, set<Vertex>>, v: Vertex): (r: map<Vertex, set<Vertex>>)
    ensures r.Keys == adj.Keys + {v}
    ensures forall x :: x in adj ==> r[x] == adj[x]
    ensures v !in adj ==> r[v] == {}
    ensures v in adj ==> r == adj
  {
    if v in adj then adj else adj[v := {}]
  }

  /** A directed graph whose nodes are kept in insertion order; adding a node
      or an edge that is already there changes nothing. */
  class DiGraph {
    var nodes: seq<Vertex>
    var adj: map<Vertex, set<Vertex>>

    /** The node list and the successor map hold the same nodes. */
    ghost predicate Valid()
      reads this
    {
      forall v :: v in adj <==> v in nodes
    }

    constructor ()
      ensures Valid() && nodes == [] && adj == map[]
    {
      nodes := [];
      adj := map[];
    }

    function Value(): Graph
      reads this
    {
      Graph(nodes, adj)
    }

    method AddNode(v: Vertex)
      requires Valid()
      modifies this
      ensures Valid()
      ensures nodes == AppendNew(old(nodes), v) && adj == WithNode(old(adj), v)
    {
      if v !in adj {
        adj := adj[v := {}];
        nodes := nodes + [v];
      }
    }

    /** Adds the edge `u -> v`, adding either end first when it is missing. */
    method AddEdge(u: Vertex, v: Vertex)
      requires Valid()
      modifies this
      ensures Valid()
      ensures nodes == AppendNew(AppendNew(old(nodes), u), v)
      ensures var a := WithNode(WithNode(old(adj), u), v); adj == a[u := a[u] + {v}]
    {
      AddNode(u);
      AddNode(v);
      adj := adj[u := adj[u] + {v}];
    }
  }
}
