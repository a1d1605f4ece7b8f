/** The members of one class body, as the two sorters see them. */
module ClassBody {
  import opened Naming

  /** What an attribute access `x.attr` hangs on: a bare name such as `self`,
      or any other expression. */
  datatype Receiver = Name(id: string) | Other

  /** One attribute-access expression `receiver.attr` found in a method body. */
  datatype Access = Access(receiver: Receiver, attr: string)

  /** A statement of a class body. A function definition carries its name and
      the attribute accesses of its body in traversal order; any other
      statement is opaque and identified by `id`. `leading` is the number of
      blank lines before the statement. */
  datatype Member =
    | FunctionDef(name: string, accesses: seq<Access>, leading: nat)
    | Statement(id: nat, leading: nat)

  /** The member with `n` blank lines before it and nothing else changed
      (`with_changes(leading_lines=...)`). */
  function WithLeadingLines(m: Member, n: nat): (r: Member)
    ensures r.leading == n && r.FunctionDef? == m.FunctionDef?
    ensures m.FunctionDef? ==> r.name == m.name && r.accesses == m.accesses
    ensures m.Statement? ==> r.id == m.id
  {
    match m
    case FunctionDef(name, accesses, _) => FunctionDef(name, accesses, n)
    case Statement(id, _) => Statement(id, n)
  }

  /** A member with its leading blank lines removed: everything the sorters
      must not change. */
  function Bare(m: Member): Member
  {
    WithLeadingLines(m, 0)
  }

  function Strip(s: seq<Member>): (r: seq<Member>)
    ensures |r| == |s| && forall i :: 0 <= i < |s| ==> r[i] == Bare(s[i])
  {
    seq(|s|, i requires 0 <= i < |s| => Bare(s[i]))
  }

  lemma {:induction false} StripAppend(a: seq<Member>, b: seq<Member>)
    ensures Strip(a + b) == Strip(a) + Strip(b)
  {
    var l, r := Strip(a + b), Strip(a) + Strip(b);
    assert |l| == |r|;
    forall i | 0 <= i < |l| ensures l[i] == r[i] {
      if i < |a| { assert (a + b)[i] == a[i]; } else { assert (a + b)[i] == b[i - |a|]; }
    }
  }

  /** Removing one element at index `k` removes it from the multiset. */
  lemma RemoveAt(b: seq<Member>, k: nat)
    requires k < |b|
    ensures multiset(b[..k] + b[k + 1..]) == multiset(b) - multiset{b[k]}
  {
    assert b == b[..k] + [b[k]] + b[k + 1..];
  }

  lemma StripAt(b: seq<Member>, k: nat)
    requires k < |b|
    ensures Strip(b) == Strip(b[..k]) + [Bare(b[k])] + Strip(b[k + 1..])
  {
    var l, r := Strip(b), Strip(b[..k]) + [Bare(b[k])] + Strip(b[k + 1..]);
    assert |l| == |r|;
    forall i | 0 <= i < |l| ensures l[i] == r[i] {
      if i < k { assert r[i] == Strip(b[..k])[i]; }
      else if i > k { assert r[i] == Strip(b[k + 1..])[i - k - 1]; }
    }
  }

  /** Removing the leading blank lines of every member keeps a permutation a
      permutation. */
  lemma {:induction false} StripPermutation(a: seq<Member>, b: seq<Member>)
    requires multiset(a) == multiset(b)
    ensures multiset(Strip(a)) == multiset(Strip(b))
    decreases |a|
  {
    if a == [] {
      assert |b| == |multiset(b)| == |multiset(a)| == 0;
    } else {
      var k :| 0 <= k < |b| && b[k] == a[0] by { assert a[0] in multiset(b); }
      assert multiset(a[1..]) == multiset(b[..k] + b[k + 1..]) by { RemoveAt(b, k); RemoveAt(a, 0); }
      StripPermutation(a[1..], b[..k] + b[k + 1..]);
      StripPermutationStep(a, b, k);
    }
  }

  lemma StripPermutationStep(a: seq<Member>, b: seq<Member>, k: nat)
    requires a != [] && k < |b| && b[k] == a[0]
    requires multiset(Strip(a[1..])) == multiset(Strip(b[..k] + b[k + 1..]))
    ensures multiset(Strip(a)) == multiset(Strip(b))
  {
    assert Strip(a) == [Bare(a[0])] + Strip(a[1..]);
    StripAt(b, k);
    StripAppend(b[..k], b[k + 1..]);
  }

  /** The function definitions of a body, in their original order (the
      `isinstance(node, cst.FunctionDef)` comprehension). */
  function Functions(body: seq<Member>): (r: seq<Member>)
    ensures forall i :: 0 <= i < |r| ==> r[i].FunctionDef?
    ensures |r| <= |body|
  {
    if body == [] then []
    else (if body[0].FunctionDef? then [body[0]] else []) + Functions(body[1..])
  }

  /** The other statements of a body, in their original order. */
  function NonFunctions(body: seq<Member>): (r: seq<Member>)
    ensures forall i :: 0 <= i < |r| ==> r[i].Statement?
    ensures |r| <= |body|
  {
    if body == [] then []
    else (if body[0].Statement? then [body[0]] else []) + NonFunctions(body[1..])
  }

  /** The two groups split the body: together they are a permutation of it. */
  lemma {:induction false} PartitionPermutes(body: seq<Member>)
    ensures multiset(NonFunctions(body) + Functions(body)) == multiset(body)
    ensures |NonFunctions(body)| + |Functions(body)| == |body|
  {
    if body != [] {
      PartitionPermutes(body[1..]);
      assert body == [body[0]] + body[1..];
    }
  }

  /** Both groups hold members of the body only. */
  lemma {:induction false} PartitionMembers(body: seq<Member>)
    ensures forall x :: x in Functions(body) ==> x in body
    ensures forall x :: x in NonFunctions(body) ==> x in body
  {
    if body != [] {
      PartitionMembers(body[1..]);
    }
  }

  /** A body with no function definitions is its own non-function group. */
  lemma {:induction false} NoFunctionsPartition(body: seq<Member>)
    requires Functions(body) == []
    ensures NonFunctions(body) == body
  {
    if body != [] {
      NoFunctionsPartition(body[1..]);
    }
  }

  lemma {:induction false} FunctionsAppend(a: seq<Member>, b: seq<Member>)
    ensures Functions(a + b) == Functions(a) + Functions(b)
  {
    if a == [] {
      assert a + b == b;
    } else {
      var h := if a[0].FunctionDef? then [a[0]] else [];
      calc {
        Functions(a + b);
        { assert (a + b)[1..] == a[1..] + b; assert (a + b)[0] == a[0]; }
        h + Functions(a[1..] + b);
        { FunctionsAppend(a[1..], b); }
        h + (Functions(a[1..]) + Functions(b));
        (h + Functions(a[1..])) + Functions(b);
        Functions(a) + Functions(b);
      }
    }
  }

  lemma {:induction false} NonFunctionsAppend(a: seq<Member>, b: seq<Member>)
    ensures NonFunctions(a + b) == NonFunctions(a) + NonFunctions(b)
  {
    if a == [] {
      assert a + b == b;
    } else {
      var h := if a[0].Statement? then [a[0]] else [];
      calc {
        NonFunctions(a + b);
        { assert (a + b)[1..] == a[1..] + b; assert (a + b)[0] == a[0]; }
        h + NonFunctions(a[1..] + b);
        { NonFunctionsAppend(a[1..], b); }
        h + (NonFunctions(a[1..]) + NonFunctions(b));
        (h + NonFunctions(a[1..])) + NonFunctions(b);
        NonFunctions(a) + NonFunctions(b);
      }
    }
  }

  /** A group that holds only function definitions is its own function group. */
  lemma {:induction false} PartitionOfFunctions(fns: seq<Member>)
    requires AllFunctions(fns)
    ensures Functions(fns) == fns && NonFunctions(fns) == []
  {
    if fns != [] {
      PartitionOfFunctions(fns[1..]);
    }
  }

  lemma {:induction false} PartitionOfStatements(stmts: seq<Member>)
    requires forall i :: 0 <= i < |stmts| ==> stmts[i].Statement?
    ensures Functions(stmts) == [] && NonFunctions(stmts) == stmts
  {
    if stmts != [] {
      PartitionOfStatements(stmts[1..]);
    }
  }

  /** Function definitions of `fns` all have names. */
  ghost predicate AllFunctions(fns: seq<Member>)
  {
    forall i :: 0 <= i < |fns| ==> fns[i].FunctionDef?
  }

  /** The `func_name` column: the name of each function definition. */
  function Names(fns: seq<Member>): (r: seq<string>)
    requires AllFunctions(fns)
    ensures |r| == |fns| && forall i :: 0 <= i < |fns| ==> r[i] == fns[i].name
  {
    if fns == [] then [] else [fns[0].name] + Names(fns[1..])
  }

  /** Every magic definition precedes every non-magic one. */
  ghost predicate MagicFirst(fns: seq<Member>)
    requires AllFunctions(fns)
  {
    forall i, j :: 0 <= i < j < |fns| && IsMagic(fns[j].name) ==> IsMagic(fns[i].name)
  }

  /** Within one magic tier every public definition precedes every private one. */
  ghost predicate PublicFirst(fns: seq<Member>)
    requires AllFunctions(fns)
  {
    forall i, j :: 0 <= i < j < |fns| && IsMagic(fns[i].name) == IsMagic(fns[j].name) && IsPublic(fns[j].name)
      ==> IsPublic(fns[i].name)
  }
}
