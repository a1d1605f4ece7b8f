/** The call-graph sorter: function definitions ordered by (is_magic,
    is_public, inverse distance), descending, stable on ties, where the
    inverse distance is the largest distance minus the method's own distance
    from the anchor of the call graph; the other statements first. */
module SortClassesNodes {
  import opened Naming
  import opened ClassBody
  import opened MultiKeySort
  import opened Seam
  import opened Digraph
  import opened CallGraphTable
  import opened CallGraph
  import opened CallGraphDistances

  /** The `distance` column of the table of `fns`. */
  function DistanceColumn(fns: seq<Member>): (r: seq<nat>)
    requires AllFunctions(fns)
    ensures |r| == |fns|
  {
    AllMethodsReached(fns);
    Distances(MethodGraph(fns), Anchor, Names(fns))
  }

  /** The distance of the method `name`; 0 only for a name that is not a
      method, whose distance is never asked for. */
  function Depth(fns: seq<Member>, name: string): nat
    requires AllFunctions(fns)
  {
    match Distance(fns, name)
    case Some(d) => d
    case None => 0
  }

  /** The largest value of a column, 0 for an empty one. */
  function MaxOf(s: seq<nat>): (m: nat)
    ensures forall i :: 0 <= i < |s| ==> s[i] <= m
    ensures s != [] ==> exists i :: 0 <= i < |s| && s[i] == m
  {
    if s == [] then 0
    else
      var rest := MaxOf(s[1..]);
      assert forall i :: 1 <= i < |s| ==> s[i] == s[1..][i - 1];
      if s[0] >= rest then s[0] else (assert s[1..] != []; rest)
  }

  /** The `inverse_distance` column: the largest distance minus each
      distance, so never negative, and largest for the smallest distance. */
  function InverseDistance(distance: seq<nat>): (r: seq<int>)
    ensures |r| == |distance|
    ensures forall i :: 0 <= i < |distance| ==> r[i] >= 0
  {
    var m := MaxOf(distance);
    seq(|distance|, i requires 0 <= i < |distance| => m - distance[i])
  }

  /** The inverse distance reverses the order of the distances. */
  lemma InverseDistanceReverses(distance: seq<nat>, i: nat, j: nat)
    requires i < |distance| && j < |distance|
    ensures InverseDistance(distance)[i] >= InverseDistance(distance)[j] <==> distance[i] <= distance[j]
  {
  }

  /** The table with its `is_magic`, `is_public` and `inverse_distance`
      columns as sort keys. */
  function SortRows(nodes: seq<Member>, names: seq<string>, inverseDistance: seq<int>): (rows: seq<Row<Member>>)
    requires |names| == |nodes| && |inverseDistance| == |nodes|
    ensures |rows| == |nodes|
    ensures forall i :: 0 <= i < |nodes| ==>
      rows[i] == Row(nodes[i], Key(IsMagic(names[i]), IsPublic(names[i]), inverseDistance[i]))
  {
    seq(|nodes|, i requires 0 <= i < |nodes| =>
      Row(nodes[i], Key(IsMagic(names[i]), !IsPrivate(names[i]), inverseDistance[i])))
  }

  /** The sort table of `fns`. */
  function GraphRows(fns: seq<Member>): (rows: seq<Row<Member>>)
    requires AllFunctions(fns)
    ensures |rows| == |fns|
  {
    SortRows(fns, Names(fns), InverseDistance(DistanceColumn(fns)))
  }

  /** The function definitions in sorted order. */
  function CallGraphOrder(fns: seq<Member>): seq<Member>
    requires AllFunctions(fns)
  {
    Items(SortValues(GraphRows(fns)))
  }

  /** The whole reordering of one class body, as a value. */
  function SortedBody(body: seq<Member>): seq<Member>
  {
    Layout(NonFunctions(body), CallGraphOrder(Functions(body)))
  }

  // ---------------------------------------------------------------------
  // The methods of the transformer.

  /** The table of the function definitions, its `used_functions` column,
      the call graph rooted at a node that is not a method, and the distance
      column written on it. */
  method GetFuncNamesWithDistancesFromRootSource(classNodesIter: seq<Member>) returns (funcDf: FuncFrame)
    ensures fresh(funcDf) && AllFunctions(Functions(classNodesIter))
    ensures funcDf.node == Functions(classNodesIter)
    ensures funcDf.funcName == Names(Functions(classNodesIter))
    ensures funcDf.distance == DistanceColumn(Functions(classNodesIter))
  {
    funcDf := GetCallsDf(classNodesIter);
    AddUsedFunctions(funcDf);
    ghost var fns := Functions(classNodesIter);
    forall i, c | 0 <= i < |funcDf.usedFunctions| && c in funcDf.usedFunctions[i] ensures c in funcDf.funcName {
      UsedFunctionsExactly(funcDf.funcName, funcDf.usedObjects, i, c);
    }
    var root := Anchor;
    var directedGraph := CreateDirectedCallGraph(funcDf, root);
    AllMethodsReached(fns);
    var ok := AddDistances(funcDf, directedGraph, root);
  }

  /** The definitions sorted by the three columns. */
  method GetSortedFunctionsNodesList(functionsNodesList: seq<Member>) returns (sortedFunctionsNodesList: seq<Member>)
    ensures AllFunctions(Functions(functionsNodesList))
    ensures sortedFunctionsNodesList == CallGraphOrder(Functions(functionsNodesList))
  {
    var df := GetFuncNamesWithDistancesFromRootSource(functionsNodesList);
    var inverseDistance := InverseDistance(df.distance);
    var df2 := SortValues(SortRows(df.node, df.funcName, inverseDistance));
    sortedFunctionsNodesList := Items(df2);
  }

  /** Reorders one class body: the other statements first, then the sorted
      definitions, with the blank lines of the first member of each group
      edited in place. */
  method SortNodes(nodesIterator: seq<Member>) returns (sortedFunctionsList: seq<Member>)
    ensures sortedFunctionsList == SortedBody(nodesIterator)
  {
    var functionsNodesList := Functions(nodesIterator);
    var notFunctionsNodesList := NonFunctions(nodesIterator);
    var sortedFunctionsNodesList: seq<Member>;
    if functionsNodesList != [] {
      PartitionOfFunctions(functionsNodesList);
      sortedFunctionsNodesList := GetSortedFunctionsNodesList(functionsNodesList);
    } else {
      sortedFunctionsNodesList := [];
    }
    sortedFunctionsList := JoinGroups(notFunctionsNodesList, sortedFunctionsNodesList);
  }

  // ---------------------------------------------------------------------
  // The sorted function definitions.

  /** Row `i` of the distance column is the distance of the method of row `i`. */
  lemma DistanceColumnAt(fns: seq<Member>, i: nat)
    requires AllFunctions(fns) && i < |fns|
    ensures Some(DistanceColumn(fns)[i]) == Distance(fns, fns[i].name)
    ensures DistanceColumn(fns)[i] == Depth(fns, fns[i].name)
  {
    AllMethodsReached(fns);
    DistancesAt(MethodGraph(fns), Anchor, Names(fns), i);
  }

  /** The sort columns of a definition, as a function of its name. */
  function GraphKey(fns: seq<Member>, f: Member): Key
    requires AllFunctions(fns) && f.FunctionDef?
  {
    Key(IsMagic(f.name), IsPublic(f.name), MaxOf(DistanceColumn(fns)) - Depth(fns, f.name))
  }

  /** Every row holds a definition and the key of its own name. */
  ghost predicate Labelled(fns: seq<Member>, rows: seq<Row<Member>>)
    requires AllFunctions(fns)
  {
    forall r :: r in rows ==> r.item.FunctionDef? && r.key == GraphKey(fns, r.item)
  }

  lemma GraphRowsLabelled(fns: seq<Member>)
    requires AllFunctions(fns)
    ensures Labelled(fns, GraphRows(fns)) && Labelled(fns, SortValues(GraphRows(fns)))
    ensures Items(GraphRows(fns)) == fns
  {
    GraphRowsKeyed(fns);
    SortedLabelled(fns, GraphRows(fns));
  }

  lemma GraphRowsKeyed(fns: seq<Member>)
    requires AllFunctions(fns)
    ensures Labelled(fns, GraphRows(fns)) && Items(GraphRows(fns)) == fns
  {
    var rows := GraphRows(fns);
    forall i | 0 <= i < |fns| ensures rows[i] == Row(fns[i], GraphKey(fns, fns[i])) {
      GraphRowAt(fns, i);
    }
  }

  /** The sort keeps every row, so it keeps the labels. */
  lemma SortedLabelled(fns: seq<Member>, rows: seq<Row<Member>>)
    requires AllFunctions(fns) && Labelled(fns, rows)
    ensures Labelled(fns, SortValues(rows))
  {
    SortPermutes(rows);
    forall r | r in SortValues(rows) ensures r.item.FunctionDef? && r.key == GraphKey(fns, r.item) {
      assert r in multiset(SortValues(rows));
      assert r in rows;
    }
  }

  lemma GraphRowAt(fns: seq<Member>, i: nat)
    requires AllFunctions(fns) && i < |fns|
    ensures GraphRows(fns)[i] == Row(fns[i], GraphKey(fns, fns[i]))
  {
    InverseAt(fns, i);
  }

  lemma InverseAt(fns: seq<Member>, i: nat)
    requires AllFunctions(fns) && i < |fns|
    ensures InverseDistance(DistanceColumn(fns))[i] == MaxOf(DistanceColumn(fns)) - Depth(fns, fns[i].name)
  {
    DistanceColumnAt(fns, i);
  }

  /** A labelled table holds only definitions. */
  lemma LabelledItems(fns: seq<Member>, rows: seq<Row<Member>>)
    requires AllFunctions(fns) && Labelled(fns, rows)
    ensures AllFunctions(Items(rows))
  {
    assert forall i :: 0 <= i < |rows| ==> rows[i] in rows;
  }

  /** The sorted definitions are a permutation of the definitions. */
  lemma CallGraphOrderPermutes(fns: seq<Member>)
    requires AllFunctions(fns)
    ensures multiset(CallGraphOrder(fns)) == multiset(fns) && AllFunctions(CallGraphOrder(fns))
  {
    GraphRowsLabelled(fns);
    SortPermutesItems(GraphRows(fns));
    LabelledItems(fns, SortValues(GraphRows(fns)));
  }

  /** Within one (magic, public) tier the methods closer to the anchor come
      first. */
  ghost predicate CloserFirst(fns: seq<Member>, o: seq<Member>)
    requires AllFunctions(fns) && AllFunctions(o)
  {
    forall i, j :: 0 <= i < j < |o| && IsMagic(o[i].name) == IsMagic(o[j].name)
      && IsPublic(o[i].name) == IsPublic(o[j].name)
      ==> Depth(fns, o[i].name) <= Depth(fns, o[j].name)
  }

  /** Magic definitions first; within a magic tier public before private;
      within a (magic, public) tier smaller distance first. */
  lemma CallGraphOrderRanked(fns: seq<Member>)
    requires AllFunctions(fns)
    ensures AllFunctions(CallGraphOrder(fns))
    ensures MagicFirst(CallGraphOrder(fns)) && PublicFirst(CallGraphOrder(fns))
    ensures CloserFirst(fns, CallGraphOrder(fns))
  {
    var sorted := SortValues(GraphRows(fns));
    GraphRowsLabelled(fns);
    SortDescending(GraphRows(fns));
    var o := CallGraphOrder(fns);
    forall i | 0 <= i < |o| ensures o[i].FunctionDef? && sorted[i].key == GraphKey(fns, o[i]) {
      assert sorted[i] in sorted;
    }
    forall i, j | 0 <= i < j < |o| ensures KeyGe(GraphKey(fns, o[i]), GraphKey(fns, o[j])) {
      assert KeyGe(sorted[i].key, sorted[j].key);
    }
  }

  /** The sort key of any member; members that are not definitions never
      occur in the table. */
  function GraphKeyOf(fns: seq<Member>): Member -> Key
    requires AllFunctions(fns)
  {
    (f: Member) => if f.FunctionDef? then GraphKey(fns, f) else Key(false, false, 0)
  }

  /** The definitions among `o` with the given flags and distance, in order. */
  function Tied(fns: seq<Member>, o: seq<Member>, magic: bool, public: bool, d: nat): seq<Member>
    requires AllFunctions(fns)
  {
    Matching(o, GraphKeyOf(fns), Key(magic, public, MaxOf(DistanceColumn(fns)) - d))
  }

  /** A definition is kept exactly when it has those flags and that distance. */
  lemma TiedMembers(fns: seq<Member>, o: seq<Member>, magic: bool, public: bool, d: nat, f: Member)
    requires AllFunctions(fns) && f.FunctionDef?
    ensures f in Tied(fns, o, magic, public, d) <==>
      f in o && IsMagic(f.name) == magic && IsPublic(f.name) == public && Depth(fns, f.name) == d
  {
    MatchingMembers(o, GraphKeyOf(fns), Key(magic, public, MaxOf(DistanceColumn(fns)) - d), f);
  }

  /** Stability: definitions tied on all three columns keep their original
      relative order. */
  lemma CallGraphOrderStable(fns: seq<Member>, magic: bool, public: bool, d: nat)
    requires AllFunctions(fns)
    ensures Tied(fns, CallGraphOrder(fns), magic, public, d) == Tied(fns, fns, magic, public, d)
  {
    var rows := GraphRows(fns);
    GraphRowsLabelled(fns);
    assert KeyedBy(rows, GraphKeyOf(fns)) by {
      forall r | r in rows ensures r.key == GraphKeyOf(fns)(r.item) { }
    }
    SortStableItems(rows, GraphKeyOf(fns), Key(magic, public, MaxOf(DistanceColumn(fns)) - d));
  }

  // ---------------------------------------------------------------------
  // The reordered body.

  /** The output is a permutation of the input once blank lines are ignored. */
  lemma SortedBodyPermutes(body: seq<Member>)
    ensures |SortedBody(body)| == |body|
    ensures multiset(Strip(SortedBody(body))) == multiset(Strip(body))
  {
    CallGraphOrderPermutes(Functions(body));
    ReassemblyPermutes(body, CallGraphOrder(Functions(body)));
  }

  /** The other statements come first, in their original order; the sorted
      function definitions follow. */
  lemma SortedBodyGroups(body: seq<Member>)
    ensures var out, k := SortedBody(body), |NonFunctions(body)|;
      && AllFunctions(CallGraphOrder(Functions(body)))
      && k <= |out|
      && (forall i :: 0 <= i < k ==> out[i].Statement?)
      && (forall i :: k <= i < |out| ==> out[i].FunctionDef?)
      && Strip(out[..k]) == Strip(NonFunctions(body))
      && Strip(out[k..]) == Strip(CallGraphOrder(Functions(body)))
  {
    CallGraphOrderPermutes(Functions(body));
    ReassemblyGroups(body, CallGraphOrder(Functions(body)));
  }

  /** The seam rule: the first statement gets no blank line, the first
      function gets one after statements and none when it opens the body, and
      every other member is a member of the input, untouched. */
  lemma SortedBodySeam(body: seq<Member>)
    ensures var out, k := SortedBody(body), |NonFunctions(body)|;
      && (k > 0 ==> out[0].leading == 0)
      && (Functions(body) != [] ==> k < |out| && out[k].leading == (if k == 0 then 0 else 1))
      && (forall i :: 0 <= i < |out| && i != 0 && i != k ==> out[i] in body)
  {
    CallGraphOrderPermutes(Functions(body));
    ReassemblySeam(body, CallGraphOrder(Functions(body)));
  }

  /** Magic definitions first; within a magic tier public before private. */
  lemma SortedBodyOrder(body: seq<Member>)
    ensures var out, k := SortedBody(body), |NonFunctions(body)|;
      k <= |out| && AllFunctions(out[k..]) && MagicFirst(out[k..]) && PublicFirst(out[k..])
  {
    CallGraphOrderRanked(Functions(body));
    ReassemblyOrder(body, CallGraphOrder(Functions(body)));
  }

  /** The empty body stays empty; a body without function definitions keeps
      its order and only loses the blank lines before its first statement. */
  lemma SortedBodyDegenerate(body: seq<Member>)
    ensures SortedBody([]) == []
    ensures Functions(body) == [] ==> SortedBody(body) == SetFirstLeading(body, 0)
  {
    if Functions(body) == [] {
      NoFunctionsPartition(body);
      assert CallGraphOrder([]) == [];
    }
  }

  // ---------------------------------------------------------------------
  // Idempotence: the distances depend only on the names and the calls, so a
  // reordered list of the same definitions has the same keys.

  /** The same definitions, in any order and with any blank lines. */
  ghost predicate SameDefinitions(fns: seq<Member>, other: seq<Member>)
  {
    AllFunctions(fns) && AllFunctions(other) && multiset(Strip(fns)) == multiset(Strip(other))
  }

  /** The row of `other` that holds definition `i` of `fns`. */
  lemma Counterpart(fns: seq<Member>, other: seq<Member>, i: nat) returns (j: nat)
    requires multiset(Strip(fns)) == multiset(Strip(other)) && i < |fns|
    ensures j < |other| && Bare(other[j]) == Bare(fns[i])
  {
    assert Strip(fns)[i] in multiset(Strip(other));
    var k :| 0 <= k < |other| && Strip(other)[k] == Strip(fns)[i];
    j := k;
  }

  lemma CoversNamesAndCalls(fns: seq<Member>, other: seq<Member>)
    requires SameDefinitions(fns, other)
    ensures forall n :: n in Names(fns) ==> n in Names(other)
    ensures forall a, b :: Calls(fns, a, b) && b in Names(other) ==> Calls(other, a, b)
  {
    forall n | n in Names(fns) ensures n in Names(other) {
      var i :| 0 <= i < |fns| && Names(fns)[i] == n;
      var j := Counterpart(fns, other, i);
      assert Names(other)[j] == n;
    }
    forall a, b | Calls(fns, a, b) && b in Names(other) ensures Calls(other, a, b) {
      var i :| 0 <= i < |fns| && fns[i].name == a && Access(Name("self"), b) in fns[i].accesses;
      var j := Counterpart(fns, other, i);
      assert other[j].name == a && other[j].accesses == fns[i].accesses;
    }
  }

  /** Lists of the same definitions give every method the same distance. */
  lemma SameDefinitionsDistance(fns: seq<Member>, other: seq<Member>, name: string)
    requires SameDefinitions(fns, other)
    ensures Distance(fns, name) == Distance(other, name)
    ensures Depth(fns, name) == Depth(other, name)
  {
    CoversNamesAndCalls(fns, other);
    CoversNamesAndCalls(other, fns);
    SelfCallsIrrelevant(fns, other, name);
  }

  /** Two columns holding the same values have the same maximum. */
  lemma MaxOfSameValues(s: seq<nat>, t: seq<nat>)
    requires forall x :: x in s <==> x in t
    ensures MaxOf(s) == MaxOf(t)
  {
    if s != [] {
      var i :| 0 <= i < |s| && s[i] == MaxOf(s);
      assert s[i] in t;
    }
    if t != [] {
      var j :| 0 <= j < |t| && t[j] == MaxOf(t);
      assert t[j] in s;
    }
  }

  /** Every distance of `fns` is a distance of `other`. */
  lemma CoveredColumn(fns: seq<Member>, other: seq<Member>)
    requires SameDefinitions(fns, other)
    ensures forall x :: x in DistanceColumn(fns) ==> x in DistanceColumn(other)
  {
    forall x | x in DistanceColumn(fns) ensures x in DistanceColumn(other) {
      var i :| 0 <= i < |fns| && DistanceColumn(fns)[i] == x;
      var j := Counterpart(fns, other, i);
      CoveredAt(fns, other, i, j);
    }
  }

  /** Rows holding one definition have the same distance. */
  lemma CoveredAt(fns: seq<Member>, other: seq<Member>, i: nat, j: nat)
    requires SameDefinitions(fns, other) && i < |fns| && j < |other| && Bare(other[j]) == Bare(fns[i])
    ensures DistanceColumn(other)[j] == DistanceColumn(fns)[i]
  {
    assert other[j].name == fns[i].name;
    DistanceColumnAt(fns, i);
    DistanceColumnAt(other, j);
    SameDefinitionsDistance(fns, other, fns[i].name);
  }

  /** Lists of the same definitions have the same largest distance. */
  lemma SameDefinitionsMax(fns: seq<Member>, other: seq<Member>)
    requires SameDefinitions(fns, other)
    ensures MaxOf(DistanceColumn(fns)) == MaxOf(DistanceColumn(other))
  {
    CoveredColumn(fns, other);
    CoveredColumn(other, fns);
    MaxOfSameValues(DistanceColumn(fns), DistanceColumn(other));
  }

  /** Lists of the same definitions give a definition the same key. */
  lemma SameDefinitionsKey(fns: seq<Member>, other: seq<Member>, f: Member)
    requires SameDefinitions(fns, other) && f.FunctionDef?
    ensures GraphKey(fns, f) == GraphKey(other, f)
  {
    SameDefinitionsMax(fns, other);
    SameDefinitionsDistance(fns, other, f.name);
    KeyFromParts(fns, other, f);
  }

  lemma KeyFromParts(fns: seq<Member>, other: seq<Member>, f: Member)
    requires AllFunctions(fns) && AllFunctions(other) && f.FunctionDef?
    requires MaxOf(DistanceColumn(fns)) == MaxOf(DistanceColumn(other))
    requires Depth(fns, f.name) == Depth(other, f.name)
    ensures GraphKey(fns, f) == GraphKey(other, f)
  {
  }

  /** Editing the blank lines of the first member leaves the members the
      same, blank lines aside. */
  lemma StripSetFirstLeading(o: seq<Member>, n: nat)
    ensures Strip(SetFirstLeading(o, n)) == Strip(o)
  {
    var o' := SetFirstLeading(o, n);
    forall k | 0 <= k < |o| ensures Strip(o')[k] == Strip(o)[k] {
      assert Bare(o'[k]) == Bare(o[k]);
    }
  }

  /** Editing the blank lines of the first sorted definition keeps the same
      definitions. */
  lemma RelabelledSame(fns: seq<Member>, n: nat)
    requires AllFunctions(fns)
    ensures AllFunctions(CallGraphOrder(fns))
    ensures SameDefinitions(fns, SetFirstLeading(CallGraphOrder(fns), n))
  {
    CallGraphOrderPermutes(fns);
    StripPermutation(fns, CallGraphOrder(fns));
    StripSetFirstLeading(CallGraphOrder(fns), n);
    SetFirstLeadingRanked(CallGraphOrder(fns), n);
  }

  /** Row `i` of the table of `other` has the key of row `i` of a labelled
      table of `fns` when the two rows hold definitions of one name. */
  lemma RelabelledKeyAt(fns: seq<Member>, other: seq<Member>, sorted: seq<Row<Member>>, i: nat)
    requires SameDefinitions(fns, other) && Labelled(fns, sorted)
    requires i < |other| && i < |sorted| && other[i].name == sorted[i].item.name
    ensures GraphRows(other)[i].key == sorted[i].key
  {
    GraphRowAt(other, i);
    SameDefinitionsKey(fns, other, other[i]);
    assert sorted[i] in sorted;
  }

  /** The table of the relabelled sorted definitions is already sorted. */
  lemma RelabelledRowsDescending(fns: seq<Member>, n: nat)
    requires AllFunctions(fns)
    ensures AllFunctions(SetFirstLeading(CallGraphOrder(fns), n))
    ensures Descending(GraphRows(SetFirstLeading(CallGraphOrder(fns), n)))
  {
    var sorted := SortValues(GraphRows(fns));
    var o := CallGraphOrder(fns);
    var o' := SetFirstLeading(o, n);
    GraphRowsLabelled(fns);
    SortDescending(GraphRows(fns));
    RelabelledSame(fns, n);
    forall i | 0 <= i < |o'| ensures GraphRows(o')[i].key == sorted[i].key {
      assert o'[i].name == o[i].name;
      RelabelledKeyAt(fns, o', sorted, i);
    }
    forall i, j | 0 <= i < j < |o'| ensures KeyGe(GraphRows(o')[i].key, GraphRows(o')[j].key) {
      assert KeyGe(sorted[i].key, sorted[j].key);
    }
  }

  /** Sorting sorted definitions changes nothing, whatever the blank lines
      before the first one. */
  lemma CallGraphOrderFixed(fns: seq<Member>, n: nat)
    requires AllFunctions(fns)
    ensures AllFunctions(CallGraphOrder(fns))
    ensures var o := SetFirstLeading(CallGraphOrder(fns), n); CallGraphOrder(o) == o
  {
    var o' := SetFirstLeading(CallGraphOrder(fns), n);
    CallGraphOrderPermutes(fns);
    RelabelledRowsDescending(fns, n);
    SortOfDescending(GraphRows(o'));
    GraphRowsKeyed(o');
  }

  /** Reordering a reordered body changes nothing. */
  lemma SortedBodyIdempotent(body: seq<Member>)
    ensures SortedBody(SortedBody(body)) == SortedBody(body)
  {
    var nf, f := NonFunctions(body), Functions(body);
    var o := CallGraphOrder(f);
    CallGraphOrderPermutes(f);
    var out := SortedBody(body);
    LayoutOfLayout(nf, o);
    var n := if nf == [] then 0 else 1;
    CallGraphOrderFixed(f, n);
    assert NonFunctions(out) == SetFirstLeading(nf, 0);
    assert Functions(out) == SetFirstLeading(o, n);
    assert CallGraphOrder(Functions(out)) == Functions(out);
    assert (SetFirstLeading(nf, 0) == []) == (nf == []);
  }

  // ---------------------------------------------------------------------
  // A worked example: `__init__` calls `run`, `run` calls `helper` (and
  // touches an attribute of another object), `_private` touches a data
  // attribute of `self`.

  function ExampleClass(): (fns: seq<Member>)
    ensures AllFunctions(fns)
  {
    [ FunctionDef("__init__", [Access(Name("self"), "run")], 1)
    , FunctionDef("helper", [], 1)
    , FunctionDef("_private", [Access(Name("self"), "data")], 1)
    , FunctionDef("run", [Access(Name("self"), "helper"), Access(Other, "x")], 1)
    ]
  }

  /** The only calls between methods of the example. */
  lemma ExampleCalls(a: string, b: string)
    ensures Calls(ExampleClass(), a, b) <==> (a == "__init__" && b == "run") || (a == "run" && b == "helper")
  {
    var fns := ExampleClass();
    assert Names(fns) == ["__init__", "helper", "_private", "run"];
    if Calls(fns, a, b) {
      var i :| 0 <= i < |fns| && fns[i].name == a && Access(Name("self"), b) in fns[i].accesses;
      assert i == 0 || i == 3;
    }
    if a == "__init__" && b == "run" {
      assert fns[0].accesses[0] == Access(Name("self"), b);
    }
    if a == "run" && b == "helper" {
      assert fns[3].accesses[0] == Access(Name("self"), b);
    }
  }

  /** A class with the methods and the calls of the example, whatever else
      its bodies hold. */
  ghost predicate ExampleShape(fns: seq<Member>)
  {
    && AllFunctions(fns) && |fns| == 4
    && fns[0].name == "__init__" && fns[1].name == "helper" && fns[2].name == "_private" && fns[3].name == "run"
    && forall a, b :: Calls(fns, a, b) <==> (a == "__init__" && b == "run") || (a == "run" && b == "helper")
  }

  lemma ExampleShapeHolds()
    ensures ExampleShape(ExampleClass())
  {
    forall a, b ensures Calls(ExampleClass(), a, b) <==> (a == "__init__" && b == "run") || (a == "run" && b == "helper") {
      ExampleCalls(a, b);
    }
  }

  /** No edge leaves the methods `run` and `helper` reach. */
  lemma ShapeClosedBelow(fns: seq<Member>, inside: set<Vertex>)
    requires ExampleShape(fns)
    requires inside == {Method("run"), Method("helper")} || inside == {Method("helper")}
    ensures forall u, v :: u in inside && MethodGraph(fns).Edge(u, v) ==> v in inside
  {
    forall u, v | u in inside && MethodGraph(fns).Edge(u, v) ensures v in inside {
      NoEdgeIntoAnchor(fns, u);
      MethodEdges(fns, u.name, v.name);
    }
  }

  lemma ShapeMethods(fns: seq<Member>)
    requires ExampleShape(fns)
    ensures "__init__" in Names(fns) && "helper" in Names(fns) && "_private" in Names(fns) && "run" in Names(fns)
  {
    assert Names(fns)[0] == "__init__" && Names(fns)[1] == "helper";
    assert Names(fns)[2] == "_private" && Names(fns)[3] == "run";
  }

  /** Nothing calls `__init__` or `_private`: both sit right below the anchor. */
  lemma ShapeUnreferenced(fns: seq<Member>)
    requires ExampleShape(fns)
    ensures Distance(fns, "__init__") == Some(1) && Distance(fns, "_private") == Some(1)
  {
    ShapeMethods(fns);
    UnreferencedAtDistanceOne(fns, "__init__");
    UnreferencedAtDistanceOne(fns, "_private");
  }

  /** `run` is at most one below its only caller `__init__`. */
  lemma ShapeRunAtMost(fns: seq<Member>)
    requires ExampleShape(fns)
    ensures Distance(fns, "run").Some? && Distance(fns, "run").value <= 2
  {
    ShapeMethods(fns);
    ShapeUnreferenced(fns);
    DistanceViaCallers(fns, "run", 1);
  }

  /** `run` cannot reach `__init__`, so it is deeper than its caller. */
  lemma ShapeRunBelowInit(fns: seq<Member>)
    requires ExampleShape(fns)
    ensures Distance(fns, "run").Some? && Distance(fns, "run").value > 1
  {
    ShapeUnreferenced(fns);
    ShapeClosedBelow(fns, {Method("run"), Method("helper")});
    NotReachedFromInside(MethodGraph(fns), {Method("run"), Method("helper")}, Method("run"), Method("__init__"));
    CalleeDeeper(fns, "__init__", "run");
  }

  lemma ShapeRun(fns: seq<Member>)
    requires ExampleShape(fns)
    ensures Distance(fns, "run") == Some(2)
  {
    ShapeRunAtMost(fns);
    ShapeRunBelowInit(fns);
  }

  lemma ShapeHelperAtMost(fns: seq<Member>)
    requires ExampleShape(fns)
    ensures Distance(fns, "helper").Some? && Distance(fns, "helper").value <= 3
  {
    ShapeMethods(fns);
    ShapeRun(fns);
    DistanceViaCallers(fns, "helper", 2);
  }

  lemma ShapeHelperBelowRun(fns: seq<Member>)
    requires ExampleShape(fns)
    ensures Distance(fns, "helper").Some? && Distance(fns, "helper").value > 2
  {
    ShapeRun(fns);
    ShapeClosedBelow(fns, {Method("helper")});
    NotReachedFromInside(MethodGraph(fns), {Method("helper")}, Method("helper"), Method("run"));
    CalleeDeeper(fns, "run", "helper");
  }

  /** `helper` is one below its only caller `run`. */
  lemma ShapeHelper(fns: seq<Member>)
    requires ExampleShape(fns)
    ensures Distance(fns, "helper") == Some(3)
  {
    ShapeHelperAtMost(fns);
    ShapeHelperBelowRun(fns);
  }

  lemma ShapeColumn(fns: seq<Member>)
    requires ExampleShape(fns)
    ensures DistanceColumn(fns) == [1, 3, 1, 2]
  {
    ShapeUnreferenced(fns);
    ShapeRun(fns);
    ShapeHelper(fns);
    DistanceColumnAt(fns, 0);
    DistanceColumnAt(fns, 1);
    DistanceColumnAt(fns, 2);
    DistanceColumnAt(fns, 3);
  }

  lemma ShapeRows(fns: seq<Member>)
    requires ExampleShape(fns)
    ensures GraphRows(fns) == [ Row(fns[0], Key(true, true, 2)), Row(fns[1], Key(false, true, 0))
                              , Row(fns[2], Key(false, false, 2)), Row(fns[3], Key(false, true, 1)) ]
  {
    ShapeInverse(fns);
    ExampleNames();
    var names := Names(fns);
    assert names == ["__init__", "helper", "_private", "run"];
    assert GraphRows(fns) == SortRows(fns, names, [2, 0, 2, 1]);
  }

  lemma ShapeInverse(fns: seq<Member>)
    requires ExampleShape(fns)
    ensures InverseDistance(DistanceColumn(fns)) == [2, 0, 2, 1]
  {
    ShapeColumn(fns);
    InverseOfExampleColumn();
  }

  lemma InverseOfExampleColumn()
    ensures InverseDistance([1, 3, 1, 2]) == [2, 0, 2, 1]
  {
    var d: seq<nat> := [1, 3, 1, 2];
    assert d[1] == 3;
    assert MaxOf(d) == 3;
  }

  /** The table sort on the example's keys. */
  lemma SortExampleKeys<T>(a: T, b: T, c: T, d: T)
    ensures var ka, kb, kc, kd := Key(true, true, 2), Key(false, true, 0), Key(false, false, 2), Key(false, true, 1);
      SortValues([Row(a, ka), Row(b, kb), Row(c, kc), Row(d, kd)]) == [Row(a, ka), Row(d, kd), Row(b, kb), Row(c, kc)]
  {
    var ka, kb, kc, kd := Key(true, true, 2), Key(false, true, 0), Key(false, false, 2), Key(false, true, 1);
    var rows := [Row(a, ka), Row(b, kb), Row(c, kc), Row(d, kd)];
    assert rows[3..][1..] == [] && rows[2..][1..] == rows[3..] && rows[1..][1..] == rows[2..];
    assert SortValues(rows[3..]) == [rows[3]];
    assert Insert(rows[2], [rows[3]]) == [rows[3], rows[2]];
    assert SortValues(rows[2..]) == [rows[3], rows[2]];
    assert Insert(rows[1], [rows[2]]) == [rows[1], rows[2]];
    assert Insert(rows[1], [rows[3], rows[2]]) == [rows[3], rows[1], rows[2]];
    assert SortValues(rows[1..]) == [rows[3], rows[1], rows[2]];
  }

  /** `__init__` first (magic), then the public methods from the nearest to
      the farthest, then the private one. */
  lemma ShapeOrder(fns: seq<Member>)
    requires ExampleShape(fns)
    ensures CallGraphOrder(fns) == [fns[0], fns[3], fns[1], fns[2]]
  {
    ShapeRows(fns);
    SortExampleKeys(fns[0], fns[1], fns[2], fns[3]);
  }

  /** The worked example: distances 1, 3, 1, 2 in body order and the order
      `__init__, run, helper, _private`. */
  lemma WorkedExample()
    ensures var fns := ExampleClass();
      && Distance(fns, "__init__") == Some(1) && Distance(fns, "run") == Some(2)
      && Distance(fns, "helper") == Some(3) && Distance(fns, "_private") == Some(1)
      && CallGraphOrder(fns) == [fns[0], fns[3], fns[1], fns[2]]
  {
    ExampleShapeHolds();
    ShapeUnreferenced(ExampleClass());
    ShapeRun(ExampleClass());
    ShapeHelper(ExampleClass());
    ShapeOrder(ExampleClass());
  }

  lemma ExampleNames()
    ensures IsMagic("__init__") && IsPublic("__init__")
    ensures !IsMagic("helper") && IsPublic("helper")
    ensures !IsMagic("run") && IsPublic("run")
    ensures !IsMagic("_private") && !IsPublic("_private")
  {
    var m := "__init__";
    assert m[..2] == "__" && m[|m| - 2..] == "__";
  }

  // ---------------------------------------------------------------------
  // The anchor as written: the node named by the string `root`.

  /** The call graph with the string `root` as its root, which is the node of
      a method named `root` when the class has one. */
  function StringRootGraph(fns: seq<Member>): Graph
    requires AllFunctions(fns)
  {
    var names := Names(fns);
    CallGraphOf(Method("root"), names, UsedFunctions(names, UsedObjects(fns)))
  }

  /** A class with a method named `root` has no distance column: that
      method's paths from the root start and end at the same node, there is
      none, and the maximum over them fails. */
  lemma RootNameCollision(fns: seq<Member>)
    requires AllFunctions(fns) && "root" in Names(fns)
    ensures !AllReached(StringRootGraph(fns), Method("root"), Names(fns))
  {
    var i :| 0 <= i < |Names(fns)| && Names(fns)[i] == "root";
    assert LongestSimplePath(StringRootGraph(fns), Method("root"), Method(Names(fns)[i])) == None;
  }

  /** The distance computation as written. `ok` is false exactly when some
      method is not reached, which a method named `root` always causes. */
  method DistancesWithStringRoot(classNodesIter: seq<Member>) returns (funcDf: FuncFrame, ok: bool)
    ensures fresh(funcDf) && AllFunctions(Functions(classNodesIter))
    ensures ok <==> AllReached(StringRootGraph(Functions(classNodesIter)), Method("root"), funcDf.funcName)
    ensures "root" in Names(Functions(classNodesIter)) ==> !ok
  {
    funcDf := GetCallsDf(classNodesIter);
    AddUsedFunctions(funcDf);
    ghost var fns := Functions(classNodesIter);
    forall i, c | 0 <= i < |funcDf.usedFunctions| && c in funcDf.usedFunctions[i] ensures c in funcDf.funcName {
      UsedFunctionsExactly(funcDf.funcName, funcDf.usedObjects, i, c);
    }
    var root := Method("root");
    var directedGraph := CreateDirectedCallGraph(funcDf, root);
    ok := AddDistances(funcDf, directedGraph, root);
    if "root" in Names(fns) {
      RootNameCollision(fns);
    }
  }

  /** The smallest class that shows it: one method, named `root`. */
  lemma RootNameCollisionExample()
    ensures var fns := [FunctionDef("root", [], 1)];
      AllFunctions(fns) && !AllReached(StringRootGraph(fns), Method("root"), Names(fns))
  {
    var fns := [FunctionDef("root", [], 1)];
    assert Names(fns) == ["root"];
    RootNameCollision(fns);
  }

  /** With the distinct anchor the same class is sorted. */
  lemma RootNameCorrected()
    ensures var fns := [FunctionDef("root", [], 1)];
      AllFunctions(fns) && AllReached(MethodGraph(fns), Anchor, Names(fns))
      && Distance(fns, "root") == Some(1)
  {
    var fns := [FunctionDef("root", [], 1)];
    assert Names(fns) == ["root"];
    AllMethodsReached(fns);
    forall a | a != "root" ensures !Calls(fns, a, "root") { }
    UnreferencedAtDistanceOne(fns, "root");
  }
}
