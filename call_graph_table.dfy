/** The per-method table of the call-graph sorter: the collector of
    `self.<name>` accesses, the table of function definitions with the names
    they access, and the filtering of those names down to methods. */
module CallGraphTable {
  import opened ClassBody

  /** An access `self.<attr>`: the receiver is the bare name `self`. */
  predicate IsSelfAttribute(a: Access)
  {
    a.receiver == Name("self")
  }

  /** The attribute names accessed on `self`, in traversal order, repeats kept. */
  function SelfReferences(accesses: seq<Access>): (r: seq<string>)
    ensures |r| <= |accesses|
  {
    if accesses == [] then []
    else
      var last := accesses[|accesses| - 1];
      SelfReferences(accesses[..|accesses| - 1]) + (if IsSelfAttribute(last) then [last.attr] else [])
  }

  /** A name is collected exactly when some access of the body is
      `self.<name>`; accesses on anything else are ignored. */
  lemma {:induction false} SelfReferencesExactly(accesses: seq<Access>, x: string)
    ensures x in SelfReferences(accesses) <==>
      exists i :: 0 <= i < |accesses| && accesses[i] == Access(Name("self"), x)
  {
    if accesses != [] {
      var n := |accesses| - 1;
      SelfReferencesExactly(accesses[..n], x);
      if x in SelfReferences(accesses[..n]) {
        var i :| 0 <= i < n && accesses[..n][i] == Access(Name("self"), x);
        assert accesses[i] == Access(Name("self"), x);
      }
      if exists i :: 0 <= i < |accesses| && accesses[i] == Access(Name("self"), x) {
        var i :| 0 <= i < |accesses| && accesses[i] == Access(Name("self"), x);
        if i < n { assert accesses[..n][i] == accesses[i]; }
      }
    }
  }

  /** Visits the attribute accesses of one method body and records the ones
      made on `self`. */
  class CallGraphCollector {
    var usedMethodsList: seq<string>

    constructor ()
      ensures usedMethodsList == []
    {
      usedMethodsList := [];
    }

    method VisitAttribute(node: Access)
      modifies this
      ensures usedMethodsList == old(usedMethodsList) + (if IsSelfAttribute(node) then [node.attr] else [])
    {
      if node.receiver.Name? && node.receiver.id == "self" {
        usedMethodsList := usedMethodsList + [node.attr];
      }
    }

    method GetUsedMethodsList() returns (r: seq<string>)
      ensures r == usedMethodsList
    {
      r := usedMethodsList;
    }
  }

  /** The traversal of a method body, which visits every attribute access in
      order. */
  method Visit(collector: CallGraphCollector, accesses: seq<Access>)
    modifies collector
    ensures collector.usedMethodsList == old(collector.usedMethodsList) + SelfReferences(accesses)
  {
    var i := 0;
    while i < |accesses|
      invariant 0 <= i <= |accesses|
      invariant collector.usedMethodsList == old(collector.usedMethodsList) + SelfReferences(accesses[..i])
    {
      assert accesses[..i + 1][..i] == accesses[..i];
      collector.VisitAttribute(accesses[i]);
      i := i + 1;
    }
    assert accesses[..i] == accesses;
  }

  /** The `used_objects` column: the `self` accesses of each definition. */
  function UsedObjects(fns: seq<Member>): (r: seq<seq<string>>)
    requires AllFunctions(fns)
    ensures |r| == |fns| && forall i :: 0 <= i < |fns| ==> r[i] == SelfReferences(fns[i].accesses)
  {
    seq(|fns|, i requires 0 <= i < |fns| => SelfReferences(fns[i].accesses))
  }

  /** The `used_functions` column: the accessed names that are method names
      of the class, duplicates collapsed. */
  function UsedFunctions(names: seq<string>, usedObjects: seq<seq<string>>): (r: seq<set<string>>)
    ensures |r| == |usedObjects|
  {
    seq(|usedObjects|, i requires 0 <= i < |usedObjects| => (set x | x in usedObjects[i]) * (set n | n in names))
  }

  /** A name is kept for a row exactly when the row accesses it and it names a
      method; every other attribute is dropped. */
  lemma UsedFunctionsExactly(names: seq<string>, usedObjects: seq<seq<string>>, i: nat, x: string)
    requires i < |usedObjects|
    ensures x in UsedFunctions(names, usedObjects)[i] <==> x in usedObjects[i] && x in names
  {
  }

  /** One row of the table as built from a function definition. */
  datatype CallRow = CallRow(funcName: string, node: Member, usedObjects: seq<string>)

  function CallRows(fns: seq<Member>): (r: seq<CallRow>)
    requires AllFunctions(fns)
    ensures |r| == |fns|
    ensures forall i :: 0 <= i < |fns| ==> r[i] == CallRow(fns[i].name, fns[i], SelfReferences(fns[i].accesses))
  {
    seq(|fns|, i requires 0 <= i < |fns| => CallRow(fns[i].name, fns[i], SelfReferences(fns[i].accesses)))
  }

  lemma CallRowsAppend(fns: seq<Member>, f: Member)
    requires AllFunctions(fns) && f.FunctionDef?
    ensures AllFunctions(fns + [f])
    ensures CallRows(fns + [f]) == CallRows(fns) + [CallRow(f.name, f, SelfReferences(f.accesses))]
  {
    assert AllFunctions(fns + [f]) by {
      forall i | 0 <= i < |fns + [f]| ensures (fns + [f])[i].FunctionDef? {
        if i < |fns| { assert (fns + [f])[i] == fns[i]; }
      }
    }
  }

  /** The data frame of the function definitions of a class body. Its
      columns are written in place as the pipeline goes. */
  class FuncFrame {
    var funcName: seq<string>
    var node: seq<Member>
    var usedObjects: seq<seq<string>>
    var usedFunctions: seq<set<string>>
    var distance: seq<nat>

    constructor (rows: seq<CallRow>)
      ensures funcName == seq(|rows|, i requires 0 <= i < |rows| => rows[i].funcName)
      ensures node == seq(|rows|, i requires 0 <= i < |rows| => rows[i].node)
      ensures usedObjects == seq(|rows|, i requires 0 <= i < |rows| => rows[i].usedObjects)
      ensures usedFunctions == [] && distance == []
    {
      funcName := seq(|rows|, i requires 0 <= i < |rows| => rows[i].funcName);
      node := seq(|rows|, i requires 0 <= i < |rows| => rows[i].node);
      usedObjects := seq(|rows|, i requires 0 <= i < |rows| => rows[i].usedObjects);
      usedFunctions := [];
      distance := [];
    }
  }

  /** Builds the table from the function definitions of a class body, with
      one collector per definition. */
  method GetCallsDf(classNodes: seq<Member>) returns (df: FuncFrame)
    ensures fresh(df)
    ensures AllFunctions(Functions(classNodes))
    ensures df.node == Functions(classNodes)
    ensures df.funcName == Names(Functions(classNodes))
    ensures df.usedObjects == UsedObjects(Functions(classNodes))
    ensures df.usedFunctions == [] && df.distance == []
  {
    var callGraph: seq<CallRow> := [];
    var i := 0;
    while i < |classNodes|
      invariant 0 <= i <= |classNodes|
      invariant callGraph == CallRows(Functions(classNodes[..i]))
    {
      assert classNodes[..i + 1] == classNodes[..i] + [classNodes[i]];
      FunctionsAppend(classNodes[..i], [classNodes[i]]);
      var node := classNodes[i];
      if node.FunctionDef? {
        var collector := new CallGraphCollector();
        Visit(collector, node.accesses);
        var usedMethodsList := collector.GetUsedMethodsList();
        assert Functions(classNodes[..i + 1]) == Functions(classNodes[..i]) + [node];
        CallRowsAppend(Functions(classNodes[..i]), node);
        assert usedMethodsList == SelfReferences(node.accesses);
        callGraph := callGraph + [CallRow(node.name, node, usedMethodsList)];
        assert callGraph == CallRows(Functions(classNodes[..i + 1]));
      } else {
        assert Functions(classNodes[..i + 1]) == Functions(classNodes[..i]);
        assert callGraph == CallRows(Functions(classNodes[..i + 1]));
      }
      i := i + 1;
    }
    assert classNodes[..i] == classNodes;
    df := new FuncFrame(callGraph);
  }

  /** Writes the `used_functions` column in place. */
  method AddUsedFunctions(df: FuncFrame)
    modifies df
    ensures df.usedFunctions == UsedFunctions(old(df.funcName), old(df.usedObjects))
    ensures df.funcName == old(df.funcName) && df.node == old(df.node)
    ensures df.usedObjects == old(df.usedObjects) && df.distance == old(df.distance)
  {
    var funcNamesList, usedObjects := df.funcName, df.usedObjects;
    df.usedFunctions := seq(|usedObjects|, i requires 0 <= i < |usedObjects| =>
      (set x | x in usedObjects[i]) * (set n | n in funcNamesList));
  }
}
