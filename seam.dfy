/** The blank-line rule applied where the class body is reassembled: the
    non-function statements in their original order, then the sorted
    function definitions, with only the first member of each group edited. */
module Seam {
  import opened ClassBody

  /** The group with the leading blank lines of its first member set to `n`. */
  function SetFirstLeading(group: seq<Member>, n: nat): (r: seq<Member>)
    ensures |r| == |group|
  {
    if group == [] then [] else [WithLeadingLines(group[0], n)] + group[1..]
  }

  /** The reassembled body: the first statement gets no blank line; the first
      function gets one when statements precede it and none otherwise. */
  function Layout(statements: seq<Member>, functions: seq<Member>): seq<Member>
  {
    SetFirstLeading(statements, 0) + SetFirstLeading(functions, if statements == [] then 0 else 1)
  }

  /** The edits both sorters make in place before concatenating the groups:
      index 0 of the statements loses its blank lines, and index 0 of the
      definitions gets one blank line after statements and none otherwise. */
  method JoinGroups(notFunctionsNodesList: seq<Member>, sortedFunctionsNodesList: seq<Member>)
    returns (sortedList: seq<Member>)
    ensures sortedList == Layout(notFunctionsNodesList, sortedFunctionsNodesList)
  {
    var statements, functions := notFunctionsNodesList, sortedFunctionsNodesList;
    if statements != [] {
      statements := statements[0 := WithLeadingLines(statements[0], 0)];
      if functions != [] {
        functions := functions[0 := WithLeadingLines(functions[0], 1)];
      }
    } else if functions != [] {
      functions := functions[0 := WithLeadingLines(functions[0], 0)];
    }
    assert statements == SetFirstLeading(notFunctionsNodesList, 0);
    assert functions == SetFirstLeading(sortedFunctionsNodesList, if notFunctionsNodesList == [] then 0 else 1);
    sortedList := statements + functions;
  }

  /** The two groups can be read back from the reassembled body. */
  lemma LayoutGroups(statements: seq<Member>, functions: seq<Member>)
    ensures var l, k := Layout(statements, functions), |statements|;
      && k <= |l|
      && l[..k] == SetFirstLeading(statements, 0)
      && l[k..] == SetFirstLeading(functions, if statements == [] then 0 else 1)
  {
  }

  /** Editing the blank lines of the first definition keeps the order of the
      names. */
  lemma SetFirstLeadingRanked(fns: seq<Member>, n: nat)
    requires AllFunctions(fns)
    ensures AllFunctions(SetFirstLeading(fns, n))
    ensures MagicFirst(fns) ==> MagicFirst(SetFirstLeading(fns, n))
    ensures PublicFirst(fns) ==> PublicFirst(SetFirstLeading(fns, n))
  {
    var e := SetFirstLeading(fns, n);
    assert forall i :: 0 <= i < |fns| ==> e[i].FunctionDef? && e[i].name == fns[i].name;
  }

  /** Editing blank lines never changes what a member is. */
  lemma {:induction false} LayoutKeepsContent(statements: seq<Member>, functions: seq<Member>)
    ensures Strip(Layout(statements, functions)) == Strip(statements) + Strip(functions)
  {
    var l := Layout(statements, functions);
    var r := statements + functions;
    assert |l| == |r|;
    forall i | 0 <= i < |l| ensures Bare(l[i]) == Bare(r[i]) {
    }
    StripAppend(statements, functions);
  }

  /** The seam rule: the first statement has no blank line before it; the
      first function has exactly one when a statement precedes it and none
      when it opens the body; every other member is passed through. */
  lemma LayoutSeam(statements: seq<Member>, functions: seq<Member>)
    ensures var l, k := Layout(statements, functions), |statements|;
      && |l| == |statements| + |functions|
      && (k > 0 ==> l[0].leading == 0)
      && (functions != [] ==> l[k].leading == (if k == 0 then 0 else 1))
      && (forall i :: 0 <= i < |l| && i != 0 && i != k ==> l[i] == (statements + functions)[i])
  {
  }

  /** Reassembling a reassembled body with its own groups changes nothing. */
  lemma LayoutOfLayout(statements: seq<Member>, functions: seq<Member>)
    requires forall i :: 0 <= i < |statements| ==> statements[i].Statement?
    requires AllFunctions(functions)
    ensures var l := Layout(statements, functions);
      && NonFunctions(l) == SetFirstLeading(statements, 0)
      && Functions(l) == SetFirstLeading(functions, if statements == [] then 0 else 1)
      && Layout(NonFunctions(l), Functions(l)) == l
  {
    var s := SetFirstLeading(statements, 0);
    var f := SetFirstLeading(functions, if statements == [] then 0 else 1);
    FunctionsAppend(s, f);
    NonFunctionsAppend(s, f);
    PartitionOfStatements(s);
    PartitionOfFunctions(f);
    assert SetFirstLeading(s, 0) == s;
    assert SetFirstLeading(f, if s == [] then 0 else 1) == f;
  }

  // ---------------------------------------------------------------------
  // A body reassembled around any reordering of its function definitions.

  /** Nothing is lost or added, blank lines aside. */
  lemma ReassemblyPermutes(body: seq<Member>, o: seq<Member>)
    requires multiset(o) == multiset(Functions(body))
    ensures |Layout(NonFunctions(body), o)| == |body|
    ensures multiset(Strip(Layout(NonFunctions(body), o))) == multiset(Strip(body))
  {
    var nf, f := NonFunctions(body), Functions(body);
    PartitionPermutes(body);
    LayoutKeepsContent(nf, o);
    StripPermutation(nf + o, nf + f);
    StripAppend(nf, o);
    StripPermutation(nf + f, body);
    StripAppend(nf, f);
    assert |multiset(nf + o)| == |multiset(nf + f)|;
  }

  /** The other statements come first, in their original order; the
      reordered definitions follow. */
  lemma ReassemblyGroups(body: seq<Member>, o: seq<Member>)
    requires AllFunctions(o)
    ensures var out, k := Layout(NonFunctions(body), o), |NonFunctions(body)|;
      && k <= |out|
      && (forall i :: 0 <= i < k ==> out[i].Statement?)
      && (forall i :: k <= i < |out| ==> out[i].FunctionDef?)
      && Strip(out[..k]) == Strip(NonFunctions(body))
      && Strip(out[k..]) == Strip(o)
  {
    var nf := NonFunctions(body);
    var out := Layout(nf, o);
    LayoutKeepsContent(nf, o);
    StripAppend(nf, o);
    assert out == SetFirstLeading(nf, 0) + SetFirstLeading(o, if nf == [] then 0 else 1);
    assert Strip(out)[..|nf|] == Strip(out[..|nf|]);
    assert Strip(out)[|nf|..] == Strip(out[|nf|..]);
  }

  /** The seam rule on the reassembled body, and every member other than
      the two first ones is a member of the input, untouched. */
  lemma ReassemblySeam(body: seq<Member>, o: seq<Member>)
    requires multiset(o) == multiset(Functions(body))
    ensures var out, k := Layout(NonFunctions(body), o), |NonFunctions(body)|;
      && (k > 0 ==> out[0].leading == 0)
      && (Functions(body) != [] ==> k < |out| && out[k].leading == (if k == 0 then 0 else 1))
      && (forall i :: 0 <= i < |out| && i != 0 && i != k ==> out[i] in body)
  {
    var nf, f := NonFunctions(body), Functions(body);
    assert |o| == |f| by { assert |multiset(o)| == |multiset(f)|; }
    LayoutSeam(nf, o);
    PartitionMembers(body);
    var out := Layout(nf, o);
    forall i | 0 <= i < |out| && i != 0 && i != |nf| ensures out[i] in body {
      if i < |nf| {
        assert out[i] == nf[i];
      } else {
        assert out[i] == o[i - |nf|];
        assert o[i - |nf|] in multiset(f);
      }
    }
  }

  /** The definitions keep their magic-first and public-first order. */
  lemma ReassemblyOrder(body: seq<Member>, o: seq<Member>)
    requires AllFunctions(o) && MagicFirst(o) && PublicFirst(o)
    ensures var out, k := Layout(NonFunctions(body), o), |NonFunctions(body)|;
      k <= |out| && AllFunctions(out[k..]) && MagicFirst(out[k..]) && PublicFirst(out[k..])
  {
    var nf := NonFunctions(body);
    LayoutGroups(nf, o);
    SetFirstLeadingRanked(o, if nf == [] then 0 else 1);
  }
}
