/** The naming-only sorter: function definitions ordered by (is_magic,
    is_public), descending, stable on ties; the other statements first. */
module SortMethods {
  import opened Naming
  import opened ClassBody
  import opened MultiKeySort
  import opened Seam

  /** The sort columns of a function definition. This sorter has no third
      column; a constant rank leaves the order of a two-column sort as it is. */
  function NamingKey(f: Member): Key
    requires f.FunctionDef?
  {
    Key(IsMagic(f.name), IsPublic(f.name), 0)
  }

  /** The data frame of the function definitions, with its two flag columns. */
  function NamingRows(fns: seq<Member>): (rows: seq<Row<Member>>)
    requires AllFunctions(fns)
    ensures |rows| == |fns|
    ensures forall i :: 0 <= i < |fns| ==> rows[i] == Row(fns[i], NamingKey(fns[i]))
  {
    seq(|fns|, i requires 0 <= i < |fns| => Row(fns[i], NamingKey(fns[i])))
  }

  /** Every row holds a function definition and the key of its own name. */
  ghost predicate Labelled(rows: seq<Row<Member>>)
  {
    forall r :: r in rows ==> r.item.FunctionDef? && r.key == NamingKey(r.item)
  }

  /** The function definitions in sorted order. */
  function NamingOrder(fns: seq<Member>): seq<Member>
    requires AllFunctions(fns)
  {
    Items(SortValues(NamingRows(fns)))
  }

  /** The whole reordering of one class body, as a value. */
  function SortedBody(body: seq<Member>): seq<Member>
  {
    Layout(NonFunctions(body), NamingOrder(Functions(body)))
  }

  /** The sort key of any member; other statements never occur in the table. */
  function NamingKeyOf(): Member -> Key
  {
    (f: Member) => if f.FunctionDef? then NamingKey(f) else Key(false, false, 0)
  }

  /** The function definitions among `fns` with the given flags, in order. */
  function WithFlags(fns: seq<Member>, magic: bool, public: bool): seq<Member>
  {
    Matching(fns, NamingKeyOf(), Key(magic, public, 0))
  }

  /** A definition is kept exactly when it has those flags. */
  lemma WithFlagsMembers(fns: seq<Member>, magic: bool, public: bool, f: Member)
    requires f.FunctionDef?
    ensures f in WithFlags(fns, magic, public) <==> f in fns && IsMagic(f.name) == magic && IsPublic(f.name) == public
  {
    MatchingMembers(fns, NamingKeyOf(), Key(magic, public, 0), f);
  }

  // ---------------------------------------------------------------------
  // The method: the list comprehensions, the data frame sort and the two
  // in-place edits of index 0.

  method SortFunctions(body: seq<Member>) returns (sortedList: seq<Member>)
    ensures sortedList == SortedBody(body)
  {
    var functionsList := Functions(body);
    var notFunctionsList := NonFunctions(body);
    var sortedFunctionsList: seq<Member>;
    if functionsList != [] {
      var df := NamingRows(functionsList);
      var df2 := SortValues(df);
      sortedFunctionsList := Items(df2);
    } else {
      sortedFunctionsList := [];
    }
    sortedList := JoinGroups(notFunctionsList, sortedFunctionsList);
  }

  // ---------------------------------------------------------------------
  // The sorted function definitions.

  lemma NamingRowsLabelled(fns: seq<Member>)
    requires AllFunctions(fns)
    ensures Labelled(NamingRows(fns)) && Labelled(SortValues(NamingRows(fns)))
    ensures Items(NamingRows(fns)) == fns
  {
    SortKeepsRows(NamingRows(fns));
  }

  /** A labelled table is the table of its own `node` column. */
  lemma LabelledRows(rows: seq<Row<Member>>)
    requires Labelled(rows)
    ensures AllFunctions(Items(rows)) && NamingRows(Items(rows)) == rows
  {
    assert forall i :: 0 <= i < |rows| ==> rows[i] in rows;
  }

  /** The sorted definitions are a permutation of the definitions. */
  lemma NamingOrderPermutes(fns: seq<Member>)
    requires AllFunctions(fns)
    ensures multiset(NamingOrder(fns)) == multiset(fns) && AllFunctions(NamingOrder(fns))
  {
    NamingRowsLabelled(fns);
    SortPermutesItems(NamingRows(fns));
    LabelledRows(SortValues(NamingRows(fns)));
  }

  /** Magic definitions come before the others, and within one magic tier
      public definitions come before private ones. */
  lemma NamingOrderRanked(fns: seq<Member>)
    requires AllFunctions(fns)
    ensures AllFunctions(NamingOrder(fns))
    ensures MagicFirst(NamingOrder(fns)) && PublicFirst(NamingOrder(fns))
  {
    var sorted := SortValues(NamingRows(fns));
    NamingRowsLabelled(fns);
    SortDescending(NamingRows(fns));
    var o := NamingOrder(fns);
    forall i | 0 <= i < |o| ensures o[i].FunctionDef? && sorted[i].key == NamingKey(o[i]) {
      assert sorted[i] in sorted;
    }
    forall i, j | 0 <= i < j < |o| ensures KeyGe(NamingKey(o[i]), NamingKey(o[j])) {
      assert KeyGe(sorted[i].key, sorted[j].key);
    }
  }

  /** Stability: the definitions that agree on both flags keep their original
      relative order. */
  lemma NamingOrderStable(fns: seq<Member>, magic: bool, public: bool)
    requires AllFunctions(fns)
    ensures WithFlags(NamingOrder(fns), magic, public) == WithFlags(fns, magic, public)
  {
    var rows := NamingRows(fns);
    NamingRowsLabelled(fns);
    assert KeyedBy(rows, NamingKeyOf()) by {
      forall r | r in rows ensures r.key == NamingKeyOf()(r.item) { }
    }
    SortStableItems(rows, NamingKeyOf(), Key(magic, public, 0));
  }

  /** Changing the blank lines of the first definition keeps a sorted table
      sorted. */
  lemma RelabelledDescending(sorted: seq<Row<Member>>, n: nat)
    requires Labelled(sorted) && Descending(sorted)
    ensures AllFunctions(Items(sorted)) && AllFunctions(SetFirstLeading(Items(sorted), n))
    ensures Descending(NamingRows(SetFirstLeading(Items(sorted), n)))
  {
    LabelledRows(sorted);
    var o := Items(sorted);
    var o' := SetFirstLeading(o, n);
    assert forall i :: 0 <= i < |o| ==> o'[i].FunctionDef? && o'[i].name == o[i].name;
    forall i, j | 0 <= i < j < |o'| ensures KeyGe(NamingRows(o')[i].key, NamingRows(o')[j].key) {
      assert NamingRows(o')[i].key == sorted[i].key;
      assert NamingRows(o')[j].key == sorted[j].key;
    }
  }

  /** Sorting sorted definitions changes nothing, whatever the blank lines
      before the first one. */
  lemma NamingOrderFixed(fns: seq<Member>, n: nat)
    requires AllFunctions(fns)
    ensures AllFunctions(NamingOrder(fns))
    ensures var o := SetFirstLeading(NamingOrder(fns), n); NamingOrder(o) == o
  {
    var sorted := SortValues(NamingRows(fns));
    NamingRowsLabelled(fns);
    SortDescending(NamingRows(fns));
    LabelledRows(sorted);
    var o := NamingOrder(fns);
    var o' := SetFirstLeading(o, n);
    RelabelledDescending(sorted, n);
    SortOfDescending(NamingRows(o'));
    LabelledRows(NamingRows(o'));
    assert Items(NamingRows(o')) == o';
  }

  // ---------------------------------------------------------------------
  // The reordered body.

  /** The output is a permutation of the input once blank lines are ignored. */
  lemma SortedBodyPermutes(body: seq<Member>)
    ensures |SortedBody(body)| == |body|
    ensures multiset(Strip(SortedBody(body))) == multiset(Strip(body))
  {
    NamingOrderPermutes(Functions(body));
    ReassemblyPermutes(body, NamingOrder(Functions(body)));
  }

  /** The other statements come first, in their original order; the sorted
      function definitions follow. */
  lemma SortedBodyGroups(body: seq<Member>)
    ensures var out, k := SortedBody(body), |NonFunctions(body)|;
      && AllFunctions(NamingOrder(Functions(body)))
      && k <= |out|
      && (forall i :: 0 <= i < k ==> out[i].Statement?)
      && (forall i :: k <= i < |out| ==> out[i].FunctionDef?)
      && Strip(out[..k]) == Strip(NonFunctions(body))
      && Strip(out[k..]) == Strip(NamingOrder(Functions(body)))
  {
    NamingOrderPermutes(Functions(body));
    ReassemblyGroups(body, NamingOrder(Functions(body)));
  }

  /** The seam rule: the first statement gets no blank line, the first
      function gets one after statements and none when it opens the body, and
      every other member is a member of the input, untouched. */
  lemma SortedBodySeam(body: seq<Member>)
    ensures var out, k := SortedBody(body), |NonFunctions(body)|;
      && (k > 0 ==> out[0].leading == 0)
      && (Functions(body) != [] ==> k < |out| && out[k].leading == (if k == 0 then 0 else 1))
      && (forall i :: 0 <= i < |out| && i != 0 && i != k ==> out[i] in body)
  {
    NamingOrderPermutes(Functions(body));
    ReassemblySeam(body, NamingOrder(Functions(body)));
  }

  /** Magic definitions first; within a magic tier public before private. */
  lemma SortedBodyOrder(body: seq<Member>)
    ensures var out, k := SortedBody(body), |NonFunctions(body)|;
      k <= |out| && AllFunctions(out[k..]) && MagicFirst(out[k..]) && PublicFirst(out[k..])
  {
    NamingOrderRanked(Functions(body));
    ReassemblyOrder(body, NamingOrder(Functions(body)));
  }

  /** The empty body stays empty; a body without function definitions keeps
      its order and only loses the blank lines before its first statement. */
  lemma SortedBodyDegenerate(body: seq<Member>)
    ensures SortedBody([]) == []
    ensures Functions(body) == [] ==> SortedBody(body) == SetFirstLeading(body, 0)
  {
    if Functions(body) == [] {
      NoFunctionsPartition(body);
      assert NamingOrder([]) == [];
    }
  }

  /** Reordering a reordered body changes nothing. */
  lemma SortedBodyIdempotent(body: seq<Member>)
    ensures SortedBody(SortedBody(body)) == SortedBody(body)
  {
    var nf, f := NonFunctions(body), Functions(body);
    var o := NamingOrder(f);
    NamingOrderPermutes(f);
    var out := SortedBody(body);
    LayoutOfLayout(nf, o);
    var n := if nf == [] then 0 else 1;
    NamingOrderFixed(f, n);
    assert NonFunctions(out) == SetFirstLeading(nf, 0);
    assert Functions(out) == SetFirstLeading(o, n);
    assert NamingOrder(Functions(out)) == Functions(out);
    assert (SetFirstLeading(nf, 0) == []) == (nf == []);
  }

  /** A magic method sorts before a private one whatever their order. */
  lemma MagicBeforePrivateExample()
    ensures SortedBody([FunctionDef("_x", [], 1), FunctionDef("__x__", [], 1)])
         == [FunctionDef("__x__", [], 0), FunctionDef("_x", [], 1)]
  {
    var x, m := FunctionDef("_x", [], 1), FunctionDef("__x__", [], 1);
    MagicBoundariesOf();
    assert NamingKey(x) == Key(false, false, 0);
    assert NamingKey(m) == Key(true, true, 0);
    assert Functions([x, m]) == [x, m];
    assert NonFunctions([x, m]) == [];
    assert NamingRows([x, m]) == [Row(x, NamingKey(x)), Row(m, NamingKey(m))];
  }

  lemma MagicBoundariesOf()
    ensures IsMagic("__x__") && !IsMagic("_x") && !IsPublic("_x")
  {
    var m := "__x__";
    assert m[..2] == "__" && m[3..] == "__";
  }
}
