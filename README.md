# Class member sorting, modelled in Dafny

Two source-to-source transformers reorder the members of each Python class body.

- `sort_methods.py` is the naming-only sorter. It puts the other statements first, in their order. The function definitions follow, sorted by (is magic, is public), descending and stable.
- `sort_classes_nodes.py` is the call-graph sorter. It adds a third key, the inverse distance. The distance of a method is the length of the longest simple path to it from an anchor node, in a directed graph of who calls whom. The anchor has an edge to every method, and each method has an edge to every method it accesses as `self.<name>`.

Both sorters reset the leading blank lines at the seam. The first statement gets none. The first function definition gets one after statements, or none when it opens the body.

The model works on class bodies as values:

- `ClassBody.Member` is a function definition, with its name, its `self`/other attribute accesses in traversal order and its number of leading blank lines, or an opaque statement.
- The state the source changes in place is kept in classes:
  - the collector's list;
  - the data frame's columns (`CallGraphTable.FuncFrame`);
  - the networkx graph (`Digraph.DiGraph`).
- Each pipeline method is proved equal to a specification function: `SortMethods.SortedBody` and `SortClassesNodes.SortedBody`.
- The properties are proved as lemmas about those functions: permutation, grouping, the seam, the order, stability, the distance bounds and the worked example.

The module layout:

- `Naming`: the classifiers.
- `ClassBody`: members and the two list comprehensions.
- `MultiKeySort`: the stable descending multi-column sort of pandas, as an insertion sort on rows.
- `Seam`: the reassembly with its blank-line edits.
- `SortMethods`: `sort_methods.py`.
- `Digraph`: the graph, its longest simple path, and the mutable graph class.
- `CallGraphTable`: the collector, the table, and `used_functions`.
- `CallGraph`: building the graph and the distance column.
- `CallGraphDistances`: what the distances mean.
- `SortClassesNodes`: the call-graph pipeline, its ordering properties, the worked example and the anchor-name finding.

Two facts about the code shape the model:

- Method names need not be unique. Two definitions with one name share one graph node and get the same distance.
- The anchor is the string `'root'`. The model uses a distinct `Anchor` vertex and records the string version under Findings.

## Model

| member | source | states |
|---|---|---|
| Naming.IsMagic | sort_methods.py:29 | the `is_magic` column: the name starts with `__` and ends with `__`; its boundary cases are stated by `Naming.MagicBoundaries` |
| Naming.IsPrivate | sort_methods.py:30 | `re.search('^_[a-zA-Z]', x) is not None`: an underscore followed by an ASCII letter at the start; its boundary cases are stated by `Naming.PublicBoundaries` |
| Naming.IsPublic | sort_classes_nodes.py:59 | the `is_public` column, the negation of the private test; `Naming.MagicIsPublic` states that every magic name is public |
| Naming.MagicIsPublic | sort_classes_nodes.py:58-59 | a magic name is never private, since its second character is `_` and not a letter |
| Naming.MagicBoundaries | sort_methods.py:29 | the prefix and suffix tests may overlap: `__` and `___` are magic; `_`, the empty name and `__x` are not |
| Naming.PublicBoundaries | sort_methods.py:30 | only `_` followed by an ASCII letter is private: `_`, `__`, `_1`, `__x`, `__init__`, `run` are public; `_private`, `_X` are not |
| ClassBody.WithLeadingLines | sort_classes_nodes.py:45 | `with_changes(leading_lines=...)` sets the number of blank lines before the member and keeps its kind, name, accesses and id; comment lines among the leading lines are not modelled |
| ClassBody.Functions | sort_classes_nodes.py:38 | the comprehension keeps only function definitions |
| ClassBody.NonFunctions | sort_classes_nodes.py:39 | the comprehension keeps only the other statements |
| ClassBody.PartitionPermutes | sort_classes_nodes.py:38-39 | the two comprehensions together are a permutation of the body |
| ClassBody.PartitionMembers | sort_classes_nodes.py:38-39 | every element of either list comes from the body |
| ClassBody.NoFunctionsPartition | sort_classes_nodes.py:39 | a body without definitions is its own list of other statements |
| ClassBody.FunctionsAppend | sort_classes_nodes.py:38 | the definitions of a concatenation are the concatenation of the definitions |
| ClassBody.NonFunctionsAppend | sort_classes_nodes.py:39 | the same for the other statements |
| ClassBody.PartitionOfFunctions | sort_classes_nodes.py:38-39 | splitting a list of definitions returns it unchanged, with no statements |
| ClassBody.PartitionOfStatements | sort_classes_nodes.py:38-39 | splitting a list of statements returns it unchanged, with no definitions |
| ClassBody.StripPermutation | sort_classes_nodes.py:45-51 | a permutation stays one when blank lines are ignored |
| ClassBody.Names | sort_classes_nodes.py:105 | the `func_name` column: the name of each definition, in order |
| MultiKeySort.Insert | sort_classes_nodes.py:60 | one step of the stable descending sort: a row goes before the first row whose key it is at least as large as; its properties are stated with `MultiKeySort.SortPermutes`, `SortDescending` and `SortStable` |
| MultiKeySort.SortValues | sort_classes_nodes.py:60 | `sort_values([...], ascending=False)` as an insertion sort on rows; `MultiKeySort.SortPermutes`, `SortDescending`, `SortStable` and `SortOfDescending` state what it promises |
| MultiKeySort.KeyGeTotal | sort_classes_nodes.py:60 | any two sort keys are ordered one way or the other |
| MultiKeySort.Items | sort_classes_nodes.py:62 | `tolist()` of the `node` column: the item of each row, in order |
| MultiKeySort.SortPermutes | sort_classes_nodes.py:60 | `sort_values` returns a permutation of the rows |
| MultiKeySort.SortPermutesItems | sort_classes_nodes.py:60-62 | the sorted `node` column is a permutation of the `node` column |
| MultiKeySort.SortKeepsRows | sort_classes_nodes.py:60 | the sorted table has exactly the rows of the table |
| MultiKeySort.SortDescending | sort_classes_nodes.py:60 | the sorted table is descending on (is_magic, is_public, rank), with true above false |
| MultiKeySort.SortStable | sort_classes_nodes.py:60 | rows with equal keys keep their relative order |
| MultiKeySort.SortOfDescending | sort_classes_nodes.py:60 | a table already in order is returned unchanged |
| MultiKeySort.SortIdempotent | sort_classes_nodes.py:60 | sorting the sorted table changes nothing |
| MultiKeySort.MatchingMembers | sort_classes_nodes.py:60 | an item is among those with key `k` exactly when it is in the list and its key is `k` |
| MultiKeySort.SortStableItems | sort_classes_nodes.py:60-62 | when the keys are a function of the items, the items sharing one key keep their order |
| Seam.SetFirstLeading | sort_classes_nodes.py:45-51 | the in-place edit of index 0 of one group; it keeps the length, and `Seam.SetFirstLeadingRanked` states that it keeps the names |
| Seam.Layout | sort_classes_nodes.py:44-52 | the reassembled body as a value: statements, then definitions, with the seam edits; stated by `Seam.LayoutGroups`, `LayoutSeam`, `LayoutKeepsContent` and `LayoutOfLayout` |
| Seam.JoinGroups | sort_classes_nodes.py:44-52 | the in-place edits of index 0 and the concatenation give the reference layout: statements, then definitions; the first statement has no blank line; the first definition has one after statements, none when it opens the body |
| Seam.LayoutGroups | sort_classes_nodes.py:52 | the statements fill the first positions and the definitions the rest |
| Seam.LayoutSeam | sort_classes_nodes.py:44-51 | the seam rule, with every member other than the two edited ones unchanged |
| Seam.LayoutKeepsContent | sort_classes_nodes.py:44-52 | with blank lines ignored, the output is the statements followed by the definitions |
| Seam.SetFirstLeadingRanked | sort_classes_nodes.py:47-51 | editing the first definition's blank lines keeps magic-first and public-first order |
| Seam.LayoutOfLayout | sort_classes_nodes.py:44-52 | splitting a laid-out body again gives the edited groups, and laying them out again changes nothing |
| Seam.ReassemblyPermutes | sort_classes_nodes.py:37-53 | if the definitions are permuted, the output has the body's length and is a permutation of the body, blank lines aside |
| Seam.ReassemblyGroups | sort_classes_nodes.py:37-53 | statements first, in their order; then the reordered definitions |
| Seam.ReassemblySeam | sort_classes_nodes.py:44-51 | the seam rule on a reassembled body; every other member is a member of the input |
| Seam.ReassemblyOrder | sort_classes_nodes.py:37-53 | magic-first and public-first order of the definitions survives reassembly |
| SortMethods.SortedBody | sort_methods.py:24-43 | the whole naming-only reordering of one body as a value, the specification `SortMethods.SortFunctions` is proved equal to; the `SortMethods.SortedBody*` lemmas state its properties |
| SortMethods.NamingRows | sort_methods.py:28-30 | one row per definition, in order, keyed by its is_magic and is_public flags |
| SortMethods.SortFunctions | sort_methods.py:24-43 | the method equals the reference reordering `SortedBody` of the body |
| SortMethods.WithFlagsMembers | sort_methods.py:29-30 | the definitions with given flags are exactly those whose names have them |
| SortMethods.NamingOrderPermutes | sort_methods.py:31-32 | the sorted definitions are a permutation of the definitions |
| SortMethods.NamingOrderRanked | sort_methods.py:29-32 | magic definitions first; within a magic tier, public before private |
| SortMethods.NamingOrderStable | sort_methods.py:31 | definitions with the same two flags keep their original relative order |
| SortMethods.NamingOrderFixed | sort_methods.py:31-32 | sorting sorted definitions changes nothing, whatever the blank lines of the first |
| SortMethods.SortedBodyPermutes | sort_methods.py:24-43 | the output has the body's length and is a permutation of it, blank lines aside |
| SortMethods.SortedBodyGroups | sort_methods.py:25-42 | statements first in their original order, then the sorted definitions |
| SortMethods.SortedBodySeam | sort_methods.py:35-41 | the seam rule; every other member is a member of the input, untouched |
| SortMethods.SortedBodyOrder | sort_methods.py:29-32 | in the output, magic definitions first and public before private within a tier |
| SortMethods.SortedBodyDegenerate | sort_methods.py:24-43 | an empty body stays empty; a body without definitions keeps its order, and only its first statement loses its blank lines |
| SortMethods.SortedBodyIdempotent | sort_methods.py:24-43 | sorting a sorted body changes nothing |
| SortMethods.MagicBeforePrivateExample | sort_methods.py:29-32 | `__x__` is moved before `_x`, and the blank lines are reset at the seam |
| Digraph.LongestFrom | sort_classes_nodes.py:76 | the longest simple path from `u` to `t` avoiding the visited nodes, -1 when there is none; `Digraph.LongestSound` and `LongestComplete` state it |
| Digraph.BestAmong | sort_classes_nodes.py:76 | the best extension through the successors of `u` from index `k` of the node list, -1 when there is none |
| Digraph.LongestSimplePath | sort_classes_nodes.py:76 | `len(max(all_simple_paths(g, s, t), key=len)) - 1`, with `None` where `max` has no path to choose; `Digraph.LongestSimplePathCorrect` states it against an independent definition of simple paths |
| Digraph.LongestSimplePathCorrect | sort_classes_nodes.py:76 | there is a value exactly when a simple path exists (none from a node to itself); it is the edge count of some simple path and at least that of every one |
| Digraph.LongestSound | sort_classes_nodes.py:76 | a non-negative search result is realised by a simple path of that length |
| Digraph.LongestComplete | sort_classes_nodes.py:76 | the search result is at least the length of every simple path |
| Digraph.LongestBound | sort_classes_nodes.py:76 | no path is longer than the number of nodes not yet visited |
| Digraph.LongestIgnoresSelfLoops | sort_classes_nodes.py:76 | graphs that agree on edges between distinct nodes have the same longest simple paths |
| Digraph.LongestViaPredecessors | sort_classes_nodes.py:76 | a node is at most one edge farther than its farthest other predecessor |
| Digraph.LongestAcrossEdge | sort_classes_nodes.py:76 | crossing an edge `u -> v` from which `u` is unreachable strictly lengthens the longest path |
| Digraph.NotReachedFromInside | sort_classes_nodes.py:76 | nothing outside a set that no edge leaves is reachable from inside it |
| Digraph.AppendNew | sort_classes_nodes.py:84 | adding a node already present changes nothing; otherwise it becomes a node |
| Digraph.WithNode | sort_classes_nodes.py:84 | a new node starts without successors; existing adjacency is unchanged |
| Digraph.DiGraph.constructor | sort_classes_nodes.py:80 | the graph starts with no nodes and no edges |
| Digraph.DiGraph.AddNode | sort_classes_nodes.py:82 | `add_node` adds the node if missing and keeps every edge |
| Digraph.DiGraph.AddEdge | sort_classes_nodes.py:86 | `add_edge` adds both endpoints if missing, then the edge |
| CallGraphTable.CallGraphCollector.constructor | sort_classes_nodes.py:17-18 | the collector starts with an empty list |
| CallGraphTable.CallGraphCollector.VisitAttribute | sort_classes_nodes.py:20-22 | an access on the bare name `self` appends its attribute; any other access changes nothing |
| CallGraphTable.CallGraphCollector.GetUsedMethodsList | sort_classes_nodes.py:24-25 | returns the collected list |
| CallGraphTable.Visit | sort_classes_nodes.py:103 | visiting a body appends its `self` attributes in traversal order, repeats kept |
| CallGraphTable.SelfReferencesExactly | sort_classes_nodes.py:20-22 | a name is collected exactly when some access of the body is `self.<name>` |
| CallGraphTable.UsedObjects | sort_classes_nodes.py:104-105 | the `used_objects` column holds the collected `self` names of each definition |
| CallGraphTable.UsedFunctions | sort_classes_nodes.py:95 | the `used_functions` column, one entry per row; `CallGraphTable.UsedFunctionsExactly` states its contents |
| CallGraphTable.UsedFunctionsExactly | sort_classes_nodes.py:95 | a name is kept for a row exactly when the row accesses it and it names a method |
| CallGraphTable.FuncFrame.constructor | sort_classes_nodes.py:106 | the `func_name`, `node` and `used_objects` columns are read from the rows |
| CallGraphTable.GetCallsDf | sort_classes_nodes.py:98-107 | one row per definition, in body order: its name, the definition, and the names it accesses on `self` |
| CallGraphTable.AddUsedFunctions | sort_classes_nodes.py:93-95 | writes the `used_functions` column and leaves the other columns unchanged |
| CallGraph.CallGraphOf | sort_classes_nodes.py:82-88 | the graph the two loops build, as a value; `CallGraph.CreateDirectedCallGraph` is proved equal to it and `CallGraphDistances.AnchorEdges`, `NoEdgeIntoAnchor` and `MethodEdges` state its edges |
| CallGraph.AddMethodNodes | sort_classes_nodes.py:83-84 | the first loop: after it the nodes are the root and then each method name once, in first-seen order, and no edge is added |
| CallGraph.AddRow | sort_classes_nodes.py:86-88 | one pass of the second loop: the edges of the rows so far plus `root` to this row's method and this method to each name it uses; nodes unchanged |
| CallGraph.AddRowEdges | sort_classes_nodes.py:85-88 | the second loop: the edges are those of every row, the nodes unchanged |
| CallGraph.Distances | sort_classes_nodes.py:75-76 | the `distance` column, one per row; `CallGraph.DistancesAt` states each entry |
| CallGraph.CallGraphNodesMembers | sort_classes_nodes.py:82-84 | after the node loop the nodes are the root and the method names, nothing else; a repeated name adds no node |
| CallGraph.NodesOfCallGraph | sort_classes_nodes.py:82-84 | the root and every method are nodes |
| CallGraph.SuccUpToExactly | sort_classes_nodes.py:85-88 | the successors after some rows: the root gets each row's method; each method gets the methods its row uses |
| CallGraph.AddCallEdges | sort_classes_nodes.py:87-88 | adds an edge from the method to each used method, in any order |
| CallGraph.CreateDirectedCallGraph | sort_classes_nodes.py:79-90 | the built graph is the call graph of the table: root and method nodes; edges root to method and method to used method |
| CallGraph.DistancesAt | sort_classes_nodes.py:75-76 | each row's distance is the longest simple path from the root to its method |
| CallGraph.AddDistances | sort_classes_nodes.py:74-76 | writes the distance column when every method has a path; otherwise the `max` fails and the table is unchanged |
| CallGraphDistances.MethodGraphNodes | sort_classes_nodes.py:82-84 | the nodes are the anchor and the method names |
| CallGraphDistances.AnchorEdges | sort_classes_nodes.py:86 | the anchor has an edge to every method and to nothing else |
| CallGraphDistances.NoEdgeIntoAnchor | sort_classes_nodes.py:85-88 | no edge ends at the anchor |
| CallGraphDistances.MethodEdges | sort_classes_nodes.py:87-88 | an edge `m -> r` exists exactly when `m` accesses `self.r` and `r` is a method |
| CallGraphDistances.MethodGraphClosed | sort_classes_nodes.py:85-88 | every edge ends at a node |
| CallGraphDistances.DistanceAtLeastOne | sort_classes_nodes.py:75-76 | every method has a distance, and it is at least 1 |
| CallGraphDistances.AllMethodsReached | sort_classes_nodes.py:75-76 | the distance column is defined for every table, so `max` never fails |
| CallGraphDistances.DistanceAtMostMethodCount | sort_classes_nodes.py:76 | no distance exceeds the number of distinct method names |
| CallGraphDistances.SelfCallsIrrelevant | sort_classes_nodes.py:87-88 | classes that differ only in methods calling themselves have the same distances |
| CallGraphDistances.DistanceViaCallers | sort_classes_nodes.py:76 | a method's distance is at most one more than that of its farthest other caller |
| CallGraphDistances.UnreferencedAtDistanceOne | sort_classes_nodes.py:76 | a method that no other method calls has distance 1 |
| CallGraphDistances.CalleeDeeper | sort_classes_nodes.py:76 | if `a` calls `b` and `b` cannot reach `a`, then `b` is strictly deeper than `a` |
| SortClassesNodes.SortedBody | sort_classes_nodes.py:37-53 | the whole call-graph reordering of one body as a value, the specification `SortClassesNodes.SortNodes` is proved equal to; the `SortClassesNodes.SortedBody*` lemmas state its properties |
| SortClassesNodes.MaxOf | sort_classes_nodes.py:57 | `max()` of the column bounds every entry and is one of them |
| SortClassesNodes.InverseDistance | sort_classes_nodes.py:57 | the inverse distance is one per row and never negative |
| SortClassesNodes.InverseDistanceReverses | sort_classes_nodes.py:57 | one row's inverse distance is at least another's exactly when its distance is at most the other's |
| SortClassesNodes.SortRows | sort_classes_nodes.py:58-59 | each row is keyed by its name's is_magic and is_public flags and its inverse distance |
| SortClassesNodes.DistanceColumnAt | sort_classes_nodes.py:75-76 | row `i` of the distance column is the distance of row `i`'s method |
| SortClassesNodes.GetFuncNamesWithDistancesFromRootSource | sort_classes_nodes.py:65-71 | the table has the definitions, their names, and the distance column of their call graph |
| SortClassesNodes.GetSortedFunctionsNodesList | sort_classes_nodes.py:55-63 | the method equals the reference order `CallGraphOrder` of the definitions |
| SortClassesNodes.SortNodes | sort_classes_nodes.py:37-53 | the method equals the reference reordering `SortedBody` of the body |
| SortClassesNodes.GraphRowsLabelled | sort_classes_nodes.py:56-60 | every row, before and after the sort, carries the key of its own definition, and the rows are the definitions in order |
| SortClassesNodes.CallGraphOrderPermutes | sort_classes_nodes.py:60-62 | the sorted definitions are a permutation of the definitions |
| SortClassesNodes.CallGraphOrderRanked | sort_classes_nodes.py:57-60 | magic first; public before private within a magic tier; within one (magic, public) tier, smaller distance first |
| SortClassesNodes.TiedMembers | sort_classes_nodes.py:57-60 | a definition is tied on the three keys exactly when it has the given flags and distance |
| SortClassesNodes.CallGraphOrderStable | sort_classes_nodes.py:60 | definitions tied on all three keys keep their original relative order |
| SortClassesNodes.SortedBodyPermutes | sort_classes_nodes.py:37-53 | the output has the body's length and is a permutation of it, blank lines aside |
| SortClassesNodes.SortedBodyGroups | sort_classes_nodes.py:38-52 | statements first in their original order, then the sorted definitions |
| SortClassesNodes.SortedBodySeam | sort_classes_nodes.py:44-51 | the seam rule; every other member is a member of the input, untouched |
| SortClassesNodes.SortedBodyOrder | sort_classes_nodes.py:58-62 | in the output, magic definitions first and public before private within a tier |
| SortClassesNodes.SortedBodyDegenerate | sort_classes_nodes.py:40-51 | an empty body stays empty; a body without definitions keeps its order, and only its first statement loses its blank lines |
| SortClassesNodes.SameDefinitionsDistance | sort_classes_nodes.py:76-88 | two lists of the same definitions, in any order and with any blank lines, give every method the same distance |
| SortClassesNodes.SameDefinitionsMax | sort_classes_nodes.py:57 | two lists of the same definitions have the same largest distance |
| SortClassesNodes.SameDefinitionsKey | sort_classes_nodes.py:57-59 | two lists of the same definitions give a definition the same three sort columns |
| SortClassesNodes.CallGraphOrderFixed | sort_classes_nodes.py:55-62 | sorting the sorted definitions again changes nothing, whatever the blank lines before the first one |
| SortClassesNodes.SortedBodyIdempotent | sort_classes_nodes.py:37-53 | reordering a reordered body changes nothing |
| SortClassesNodes.ExampleCalls | sort_classes_nodes.py:87-88 | in the example, `__init__` calls `run`, `run` calls `helper`, and nothing else; `other.x` and `self.data` give no edges |
| SortClassesNodes.ShapeOrder | sort_classes_nodes.py:55-62 | any class with the example's calls sorts as `__init__, run, helper, _private` |
| SortClassesNodes.WorkedExample | sort_classes_nodes.py:55-76 | distances `__init__` 1, `run` 2, `helper` 3, `_private` 1; order `__init__, run, helper, _private` |
| SortClassesNodes.RootNameCollision | sort_classes_nodes.py:68-76 | with the string `root` as the anchor, a method named `root` leaves some method without a path, so `max` fails |
| SortClassesNodes.DistancesWithStringRoot | sort_classes_nodes.py:65-70 | the as-written computation fails exactly when some method has no path; it always fails when a method is named `root` |
| SortClassesNodes.RootNameCollisionExample | sort_classes_nodes.py:68 | a class whose only method is `root` has no distance column as written |
| SortClassesNodes.RootNameCorrected | sort_classes_nodes.py:68 | with a distinct anchor, the same class has a distance column, and `root` has distance 1 |

## Left out

- Parsing and printing of source text, `leave_ClassDef`, the `sort_classes_nodes` and `sort_methods` entry points, the command line and file I/O are left out. The model starts from a class body given as a sequence of members.
- The `print` calls at sort_classes_nodes.py:31 and :61 and at sort_methods.py:18 have no effect on the result.
- `_create_empty_line` is left out. Blank lines are a count, and it stands for one blank line.
- ClassBody.WithLeadingLines and Seam.Layout: in the source the leading lines of a member are `EmptyLine` nodes, and such a node can carry a comment. The seam edits at sort_classes_nodes.py:45, :47-49 and :51 (and sort_methods.py:36, :38-39 and :41) replace them, so comment lines directly above the first statement and above the first sorted definition are dropped. The model counts blank lines only and does not capture this loss; its permutation lemmas hold "blank lines aside", and comment lines at the seam count as blank lines there.
- The walk of a method body by the CST visitor is an input. A definition carries the attribute accesses of its body, nested ones included, in traversal order. The `hasattr` tests of `visit_Attribute` are modelled as "the receiver is the bare name `self`". A receiver that is itself an attribute or a call is `Other`.
- Member contents other than names and accesses are opaque. An ordinary statement is identified by an id.
- The class header, and nested classes (each nested body is sorted in the same way) are out of scope. The model sorts one body.
- Pandas and networkx are left out as libraries. A data frame is a class with one `seq` per column. `sort_values` is a stable insertion sort on rows. `all_simple_paths` followed by `max` is an exhaustive search for the longest simple path. The combinatorial cost of enumerating paths is not modelled.
- `used_functions` is `list(set(...))`, whose order is arbitrary. The model keeps it as a set. The graph it feeds is the same in any order.
- SortClassesNodes.GetSortedFunctionsNodesList: the `inverse_distance`, `is_magic` and `is_public` columns are local sequences, not new columns of the frame. The state of the frame after the call is not stated.
- SortMethods.NamingRows: the naming-only sorter has only two sort columns. The model gives it the constant rank 0, which leaves the order of a two-column sort unchanged.
- CallGraph.CreateDirectedCallGraph: requires every name in `used_functions` to be a method name, which `_add_used_functions` guarantees. The source would add any other name as a new node.
- CallGraph.AddDistances: the `ValueError` of `max` over no paths is the result `ok == false`, with the table unchanged. The exception is not modelled as control flow.

## Findings

| source | as written | input that shows it | evidently intended | confidence | as-written member | corrected member |
|---|---|---|---|---|---|---|
| sort_classes_nodes.py:68 | The anchor is the string `'root'`, the same graph node as a method named `root`. That method's paths from the anchor start and end at one node. No networkx version is pinned; assuming the 2.x behaviour, where `all_simple_paths` with the source equal to the target yields no path, `max` raises. | a class whose only method is `def root(self)` (SortClassesNodes.RootNameCollisionExample) | an anchor that no method name can equal, so that every method has a distance of at least 1 | not executed | SortClassesNodes.DistancesWithStringRoot | SortClassesNodes.GetFuncNamesWithDistancesFromRootSource |
