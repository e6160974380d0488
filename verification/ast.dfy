/** The language-independent syntax tree of the main analyzer: nodes with a
    `::`-joined scope path, queries over the tree, the statistics fold and the
    scope-stack builder that every regex analyzer uses to assemble a tree. */
module Ast {
  import opened Wrappers
  import opened Strs
  import opened Seqs

  datatype NodeType =
    | FileRoot | Namespace
    | Class | Struct | Interface | Enum
    | Function | Method | Constructor | Destructor | Getter | Setter
    | Variable | Parameter | Property | Field
    | IfStatement | ElseStatement | ForLoop | WhileLoop | DoWhileLoop
    | SwitchStatement | CaseStatement | TryBlock | CatchBlock | FinallyBlock
    | FunctionCall | Expression | Assignment | BinaryExpression | UnaryExpression
    | Comment | Import | Export | Block | ReturnStatement | BreakStatement | ContinueStatement
    | Unknown

  /** `ASTNodeType::as_str`, also the key of the per-type counts. */
  function TypeName(t: NodeType): string {
    match t
    case FileRoot => "file_root"
    case Namespace => "namespace"
    case Class => "class"
    case Struct => "struct"
    case Interface => "interface"
    case Enum => "enum"
    case Function => "function"
    case Method => "method"
    case Constructor => "constructor"
    case Destructor => "destructor"
    case Getter => "getter"
    case Setter => "setter"
    case Variable => "variable"
    case Parameter => "parameter"
    case Property => "property"
    case Field => "field"
    case IfStatement => "if_statement"
    case ElseStatement => "else_statement"
    case ForLoop => "for_loop"
    case WhileLoop => "while_loop"
    case DoWhileLoop => "do_while_loop"
    case SwitchStatement => "switch_statement"
    case CaseStatement => "case_statement"
    case TryBlock => "try_block"
    case CatchBlock => "catch_block"
    case FinallyBlock => "finally_block"
    case FunctionCall => "function_call"
    case Expression => "expression"
    case Assignment => "assignment"
    case BinaryExpression => "binary_expression"
    case UnaryExpression => "unary_expression"
    case Comment => "comment"
    case Import => "import"
    case Export => "export"
    case Block => "block"
    case ReturnStatement => "return_statement"
    case BreakStatement => "break_statement"
    case ContinueStatement => "continue_statement"
    case Unknown => "unknown"
  }

  datatype Node = Node(
    nodeType: NodeType,
    name: string,
    fullName: string,
    startLine: nat,
    endLine: nat,
    startColumn: nat,
    endColumn: nat,
    depth: nat,
    scopePath: string,
    children: seq<Node>,
    attributes: map<string, string>,
    sourceText: Option<string>)

  /** `ASTNode::new`: a detached leaf at depth 0 with zeroed positions. */
  function NewNode(t: NodeType, name: string): (n: Node)
    ensures n.nodeType == t && n.name == name && n.fullName == name
    ensures n.startLine == 0 && n.endLine == 0 && n.startColumn == 0 && n.endColumn == 0
    ensures n.depth == 0 && n.scopePath == "" && n.children == []
  {
    Node(t, name, name, 0, 0, 0, 0, 0, "", [], map[], None)
  }

  /** `build_scope_path`: the child's name below the parent's scope. */
  function ChildScopePath(parentScope: string, childName: string): string {
    if parentScope == "" then childName else parentScope + "::" + childName
  }

  /** The scope path of a child extends its parent's path by one `::` segment
      and ends with the child's name. */
  lemma {:induction false} ChildScopePathExtends(parentScope: string, childName: string)
    ensures EndsWith(ChildScopePath(parentScope, childName), childName)
    ensures parentScope != "" ==> StartsWith(ChildScopePath(parentScope, childName), parentScope + "::")
    ensures parentScope != "" && "::" !in [childName] ==>
      |ChildScopePath(parentScope, childName)| == |parentScope| + 2 + |childName|
    ensures parentScope == "" ==> ChildScopePath(parentScope, childName) == childName
  {
    var r := ChildScopePath(parentScope, childName);
    if parentScope != "" {
      assert r[|r| - |childName|..] == childName;
      assert r[..|parentScope| + 2] == parentScope + "::";
    }
  }

  /** The child as `add_child` stores it under `parent`. */
  function Adopted(parent: Node, child: Node): Node {
    child.(depth := parent.depth + 1, scopePath := ChildScopePath(parent.scopePath, child.name))
  }

  /** `add_child`: the child goes last, one level deeper, under the parent's
      scope; nothing else of the parent changes and the child's own children
      are left as they were. */
  function AddChild(parent: Node, child: Node): (r: Node)
    ensures |r.children| == |parent.children| + 1
    ensures r.children[..|parent.children|] == parent.children
    ensures r.children[|parent.children|].depth == parent.depth + 1
    ensures r.children[|parent.children|].name == child.name
    ensures r.children[|parent.children|].children == child.children
    ensures r.(children := parent.children) == parent
  {
    parent.(children := parent.children + [Adopted(parent, child)])
  }

  // ---------------------------------------------------------------------------
  // Traversals
  // ---------------------------------------------------------------------------

  /** Every node of the tree, the root first, in depth-first pre-order. */
  function PreOrder(n: Node): (r: seq<Node>)
    ensures |r| >= 1 && r[0] == n
    decreases n, 1
  {
    [n] + PreOrderAll(n.children)
  }

  function PreOrderAll(cs: seq<Node>): seq<Node>
    decreases cs, 0
  {
    if |cs| == 0 then [] else PreOrder(cs[0]) + PreOrderAll(cs[1..])
  }

  lemma {:induction false} PreOrderAllAppend(a: seq<Node>, b: seq<Node>)
    ensures PreOrderAll(a + b) == PreOrderAll(a) + PreOrderAll(b)
    decreases |a|
  {
    if |a| > 0 {
      assert (a + b)[1..] == a[1..] + b;
      PreOrderAllAppend(a[1..], b);
    } else {
      assert a + b == b;
    }
  }

  function IsType(t: NodeType): Node -> bool {
    (n: Node) => n.nodeType == t
  }

  /** `find_children_by_type`: the direct children of type `t`, in order. */
  function FindChildrenByType(n: Node, t: NodeType): (r: seq<Node>)
    ensures IsFilterOf(r, n.children, IsType(t))
  {
    FilterIsFilterOf(IsType(t), n.children);
    Filter(IsType(t), n.children)
  }

  /** `find_descendants_by_type`: for each child, the child when it has type
      `t`, followed by the matches below it. */
  function FindDescendantsByType(n: Node, t: NodeType): seq<Node>
    decreases n, 1
  {
    DescendantsAll(n.children, t)
  }

  function DescendantsAll(cs: seq<Node>, t: NodeType): seq<Node>
    decreases cs, 0
  {
    if |cs| == 0 then []
    else
      (if cs[0].nodeType == t then [cs[0]] else []) + FindDescendantsByType(cs[0], t)
      + DescendantsAll(cs[1..], t)
  }

  lemma {:induction false} DescendantsAllIsFilter(cs: seq<Node>, t: NodeType)
    ensures DescendantsAll(cs, t) == Filter(IsType(t), PreOrderAll(cs))
    decreases cs, 0
  {
    if |cs| > 0 {
      var c := cs[0];
      DescendantsAllIsFilter(c.children, t);
      DescendantsAllIsFilter(cs[1..], t);
      FilterAppend(IsType(t), PreOrder(c), PreOrderAll(cs[1..]));
      FilterAppend(IsType(t), [c], PreOrderAll(c.children));
      assert Filter(IsType(t), [c]) == if c.nodeType == t then [c] else [];
    }
  }

  /** The descendants found are exactly the proper descendants of type `t`,
      in pre-order. */
  lemma {:induction false} DescendantsSpec(n: Node, t: NodeType)
    ensures IsFilterOf(FindDescendantsByType(n, t), PreOrder(n)[1..], IsType(t))
  {
    DescendantsAllIsFilter(n.children, t);
    assert PreOrder(n)[1..] == PreOrderAll(n.children);
    FilterIsFilterOf(IsType(t), PreOrderAll(n.children));
  }

  function PathMatches(path: string): Node -> bool {
    (n: Node) => n.scopePath == path || n.fullName == path
  }

  /** `query_by_path`: the node itself when its scope path or full name equals
      `path`, then the matches of each child subtree. */
  function QueryByPath(n: Node, path: string): seq<Node>
    decreases n, 1
  {
    (if n.scopePath == path || n.fullName == path then [n] else []) + QueryAll(n.children, path)
  }

  function QueryAll(cs: seq<Node>, path: string): seq<Node>
    decreases cs, 0
  {
    if |cs| == 0 then [] else QueryByPath(cs[0], path) + QueryAll(cs[1..], path)
  }

  lemma {:induction false} QueryIsFilter(n: Node, path: string)
    ensures QueryByPath(n, path) == Filter(PathMatches(path), PreOrder(n))
    decreases n, 1
  {
    QueryAllIsFilter(n.children, path);
    FilterAppend(PathMatches(path), [n], PreOrderAll(n.children));
  }

  lemma {:induction false} QueryAllIsFilter(cs: seq<Node>, path: string)
    ensures QueryAll(cs, path) == Filter(PathMatches(path), PreOrderAll(cs))
    decreases cs, 0
  {
    if |cs| > 0 {
      QueryIsFilter(cs[0], path);
      QueryAllIsFilter(cs[1..], path);
      FilterAppend(PathMatches(path), PreOrder(cs[0]), PreOrderAll(cs[1..]));
    }
  }

  /** The query returns exactly the nodes of the tree, the receiver included,
      whose scope path or full name equals `path`, in pre-order. */
  lemma {:induction false} QuerySpec(n: Node, path: string)
    ensures IsFilterOf(QueryByPath(n, path), PreOrder(n), PathMatches(path))
  {
    QueryIsFilter(n, path);
    FilterIsFilterOf(PathMatches(path), PreOrder(n));
  }

  predicate CoversLine(n: Node, line: nat) {
    n.startLine <= line <= n.endLine
  }

  /** `find_node_at_line`: nothing when the receiver's range misses the line;
      otherwise the search descends into the first child whose subtree yields a
      node, and stops at a node none of whose children covers the line. */
  function FindNodeAtLine(n: Node, line: nat): (r: Option<Node>)
    ensures r.None? <==> !CoversLine(n, line)
    ensures r.Some? ==> CoversLine(r.value, line)
    ensures r.Some? ==> forall k :: 0 <= k < |r.value.children| ==> !CoversLine(r.value.children[k], line)
    ensures r.Some? ==> r.value in PreOrder(n)
    decreases n, 1
  {
    if CoversLine(n, line) then
      match FirstAtLine(n.children, line)
      case Some(d) => Some(d)
      case None => Some(n)
    else None
  }

  /** The search over a child list answers with the search in the first child
      that covers the line. */
  function FirstAtLine(cs: seq<Node>, line: nat): (r: Option<Node>)
    ensures r.None? <==> forall k :: 0 <= k < |cs| ==> !CoversLine(cs[k], line)
    ensures r.Some? ==> CoversLine(r.value, line)
    ensures r.Some? ==> forall k :: 0 <= k < |r.value.children| ==> !CoversLine(r.value.children[k], line)
    ensures r.Some? ==> r.value in PreOrderAll(cs)
    ensures forall k :: 0 <= k < |cs| && IsFirstCovering(cs, line, k) ==> r == FindNodeAtLine(cs[k], line)
    decreases cs, 0
  {
    if |cs| == 0 then None
    else
      match FindNodeAtLine(cs[0], line)
      case Some(d) => Some(d)
      case None =>
        var rest := FirstAtLine(cs[1..], line);
        assert forall k :: 1 <= k < |cs| ==> cs[k] == cs[1..][k - 1];
        rest
  }

  /** `k` is the index of the first node of `cs` that covers the line. */
  predicate IsFirstCovering(cs: seq<Node>, line: nat, k: nat) {
    k < |cs| && CoversLine(cs[k], line) && forall j :: 0 <= j < k ==> !CoversLine(cs[j], line)
  }

  /** A path of child indices from `n` along which every node covers the line
      and every step goes to the first child that covers it. */
  predicate FirstCoverDescent(n: Node, line: nat, path: seq<nat>)
    ensures FirstCoverDescent(n, line, path) ==> ValidPath(n, path)
    decreases |path|
  {
    CoversLine(n, line) &&
    (|path| > 0 ==>
       IsFirstCovering(n.children, line, path[0]) && FirstCoverDescent(n.children[path[0]], line, path[1..]))
  }

  /** A first-cover descent that ends at a node none of whose children covers
      the line ends at the node the search finds. */
  lemma {:induction false} DescentFindsNode(n: Node, line: nat, path: seq<nat>)
    requires FirstCoverDescent(n, line, path)
    requires forall k :: 0 <= k < |At(n, path).children| ==> !CoversLine(At(n, path).children[k], line)
    ensures FindNodeAtLine(n, line) == Some(At(n, path))
    decreases |path|
  {
    if |path| > 0 {
      var k := path[0];
      assert At(n, path) == At(n.children[k], path[1..]);
      DescentFindsNode(n.children[k], line, path[1..]);
      assert FirstAtLine(n.children, line) == FindNodeAtLine(n.children[k], line);
    }
  }

  /** The search always ends such a descent: where the receiver covers the
      line, some first-cover descent from it reaches the node found. */
  lemma {:induction false} FoundByDescent(n: Node, line: nat)
    requires CoversLine(n, line)
    ensures exists path :: FirstCoverDescent(n, line, path) && Some(At(n, path)) == FindNodeAtLine(n, line)
    decreases n
  {
    if exists k :: 0 <= k < |n.children| && CoversLine(n.children[k], line) {
      var k := FirstCoveringIndex(n.children, line);
      var c := n.children[k];
      FoundByDescent(c, line);
      var p :| FirstCoverDescent(c, line, p) && Some(At(c, p)) == FindNodeAtLine(c, line);
      DescentCons(n, line, k, p);
    } else {
      assert FirstCoverDescent(n, line, []) && At(n, []) == n;
    }
  }

  /** A first-cover descent from the first covering child, with that child's
      index in front, is one from the parent, and both searches agree. */
  lemma {:induction false} DescentCons(n: Node, line: nat, k: nat, p: seq<nat>)
    requires CoversLine(n, line)
    requires IsFirstCovering(n.children, line, k)
    requires FirstCoverDescent(n.children[k], line, p)
    ensures FirstCoverDescent(n, line, [k] + p)
    ensures At(n, [k] + p) == At(n.children[k], p)
    ensures FindNodeAtLine(n, line) == FindNodeAtLine(n.children[k], line)
  {
    var path := [k] + p;
    assert path[0] == k && path[1..] == p;
  }

  /** Some node of the list covers the line, so there is a first one. */
  lemma {:induction false} FirstCoveringIndex(cs: seq<Node>, line: nat) returns (k: nat)
    requires exists i :: 0 <= i < |cs| && CoversLine(cs[i], line)
    ensures IsFirstCovering(cs, line, k)
    decreases |cs|
  {
    if CoversLine(cs[0], line) {
      k := 0;
    } else {
      var i :| 0 <= i < |cs| && CoversLine(cs[i], line);
      assert cs[1..][i - 1] == cs[i];
      var j := FirstCoveringIndex(cs[1..], line);
      k := j + 1;
      assert forall m :: 1 <= m < |cs| ==> cs[m] == cs[1..][m - 1];
    }
  }

  // ---------------------------------------------------------------------------
  // Statistics
  // ---------------------------------------------------------------------------

  /** `ASTStatistics`; the per-type count map is a multiset of type names. */
  datatype Stats = Stats(
    totalNodes: nat,
    maxDepth: nat,
    typeCounts: multiset<string>,
    classes: nat,
    functions: nat,
    methods: nat,
    variables: nat,
    controlStructures: nat)

  const EmptyStats: Stats := Stats(0, 0, multiset{}, 0, 0, 0, 0, 0)

  predicate IsClassType(n: Node) { n.nodeType in {Class, Struct, Interface} }
  predicate IsFunctionType(n: Node) { n.nodeType == Function }
  predicate IsMethodType(n: Node) { n.nodeType in {Method, Constructor, Destructor} }
  predicate IsVariableType(n: Node) { n.nodeType in {Variable, Parameter, Property, Field} }
  predicate IsControlType(n: Node) {
    n.nodeType in {IfStatement, ForLoop, WhileLoop, SwitchStatement, TryBlock}
  }

  function B(b: bool): nat { if b then 1 else 0 }

  /** The statistics of one node on its own. */
  function NodeStats(n: Node): Stats {
    Stats(1, n.depth, multiset{TypeName(n.nodeType)}, B(IsClassType(n)), B(IsFunctionType(n)),
          B(IsMethodType(n)), B(IsVariableType(n)), B(IsControlType(n)))
  }

  /** `ASTStatistics::merge`: counts add up, depth is the larger one. */
  function Merge(a: Stats, b: Stats): Stats {
    Stats(a.totalNodes + b.totalNodes,
          if a.maxDepth >= b.maxDepth then a.maxDepth else b.maxDepth,
          a.typeCounts + b.typeCounts,
          a.classes + b.classes, a.functions + b.functions, a.methods + b.methods,
          a.variables + b.variables, a.controlStructures + b.controlStructures)
  }

  /** Merging is associative, commutative and has the empty statistics as
      unit, so the fold's result does not depend on how it is grouped. */
  lemma {:induction false} MergeLaws(a: Stats, b: Stats, c: Stats)
    ensures Merge(Merge(a, b), c) == Merge(a, Merge(b, c))
    ensures Merge(a, b) == Merge(b, a)
    ensures Merge(EmptyStats, a) == a
  {
  }

  /** `collect_statistics_recursive`: the node's own statistics merged with
      each child's, left to right. */
  function CollectStats(n: Node): Stats
    decreases n, 1
  {
    FoldStats(NodeStats(n), n.children)
  }

  function FoldStats(acc: Stats, cs: seq<Node>): Stats
    decreases cs, 0
  {
    if |cs| == 0 then acc else FoldStats(Merge(acc, CollectStats(cs[0])), cs[1..])
  }

  /** `update_from_root`. */
  function UpdateFromRoot(root: Node): Stats {
    CollectStats(root)
  }

  function Depths(ns: seq<Node>): (r: seq<nat>)
    ensures |r| == |ns|
    ensures forall k :: 0 <= k < |ns| ==> r[k] == ns[k].depth
  {
    seq(|ns|, k requires 0 <= k < |ns| => ns[k].depth)
  }

  function TypeNames(ns: seq<Node>): multiset<string>
    decreases |ns|
  {
    if |ns| == 0 then multiset{} else multiset{TypeName(ns[0].nodeType)} + TypeNames(ns[1..])
  }

  /** The statistics a flat list of nodes should have, computed directly. */
  function FlatStats(ns: seq<Node>): Stats {
    Stats(|ns|, Max(Depths(ns)), TypeNames(ns),
          CountWhere(IsClassType, ns), CountWhere(IsFunctionType, ns),
          CountWhere(IsMethodType, ns), CountWhere(IsVariableType, ns),
          CountWhere(IsControlType, ns))
  }

  lemma {:induction false} TypeNamesAppend(a: seq<Node>, b: seq<Node>)
    ensures TypeNames(a + b) == TypeNames(a) + TypeNames(b)
    decreases |a|
  {
    if |a| > 0 {
      assert (a + b)[1..] == a[1..] + b;
      TypeNamesAppend(a[1..], b);
    } else {
      assert a + b == b;
    }
  }

  lemma {:induction false} TypeNamesSize(ns: seq<Node>)
    ensures |TypeNames(ns)| == |ns|
    decreases |ns|
  {
    if |ns| > 0 {
      TypeNamesSize(ns[1..]);
    }
  }

  lemma {:induction false} FlatStatsAppend(a: seq<Node>, b: seq<Node>)
    ensures FlatStats(a + b) == Merge(FlatStats(a), FlatStats(b))
  {
    var da, db := Depths(a), Depths(b);
    DepthsAppend(a, b);
    MaxAppend(da, db);
    TypeNamesAppend(a, b);
    CountWhereAppend(IsClassType, a, b);
    CountWhereAppend(IsFunctionType, a, b);
    CountWhereAppend(IsMethodType, a, b);
    CountWhereAppend(IsVariableType, a, b);
    CountWhereAppend(IsControlType, a, b);
  }

  lemma {:induction false} DepthsAppend(a: seq<Node>, b: seq<Node>)
    ensures Depths(a + b) == Depths(a) + Depths(b)
  {
  }

  lemma {:induction false} NodeStatsFlat(n: Node)
    ensures NodeStats(n) == FlatStats([n])
  {
    assert Depths([n]) == [n.depth];
    assert Max([n.depth]) == n.depth;
    assert TypeNames([n]) == multiset{TypeName(n.nodeType)};
    assert Filter(IsClassType, [n]) == if IsClassType(n) then [n] else [];
    assert Filter(IsFunctionType, [n]) == if IsFunctionType(n) then [n] else [];
    assert Filter(IsMethodType, [n]) == if IsMethodType(n) then [n] else [];
    assert Filter(IsVariableType, [n]) == if IsVariableType(n) then [n] else [];
    assert Filter(IsControlType, [n]) == if IsControlType(n) then [n] else [];
  }

  lemma {:induction false} CollectStatsIsFlat(n: Node)
    ensures CollectStats(n) == FlatStats(PreOrder(n))
    decreases n, 1
  {
    NodeStatsFlat(n);
    FoldStatsIsFlat([n], n.children);
  }

  lemma {:induction false} FoldStatsIsFlat(prefix: seq<Node>, cs: seq<Node>)
    ensures FoldStats(FlatStats(prefix), cs) == FlatStats(prefix + PreOrderAll(cs))
    decreases cs, 0
  {
    if |cs| == 0 {
      assert prefix + PreOrderAll(cs) == prefix;
    } else {
      var c, rest := cs[0], cs[1..];
      var pc, pr := PreOrder(c), PreOrderAll(rest);
      var mid := prefix + pc;
      CollectStatsIsFlat(c);
      FlatStatsAppend(prefix, pc);
      FoldStatsIsFlat(mid, rest);
      SeqAssoc(prefix, pc, pr);
      FoldStatsStep(FlatStats(prefix), cs, FlatStats(pc), FlatStats(mid), FlatStats(mid + pr));
    }
  }

  /** One step of the fold, on values: merging the first child's statistics
      and folding the rest. */
  lemma {:induction false} FoldStatsStep(acc: Stats, cs: seq<Node>, first: Stats, merged: Stats, result: Stats)
    requires |cs| > 0 && CollectStats(cs[0]) == first && Merge(acc, first) == merged
    requires FoldStats(merged, cs[1..]) == result
    ensures FoldStats(acc, cs) == result
  {
  }

  /** `update_from_root` counts every node of the tree once: the total is the
      number of nodes, the per-type counts add up to it, the depth is the
      largest depth field, and each category counts its node types. */
  lemma {:induction false} UpdateFromRootSpec(root: Node)
    ensures UpdateFromRoot(root).totalNodes == |PreOrder(root)|
    ensures |UpdateFromRoot(root).typeCounts| == UpdateFromRoot(root).totalNodes
    ensures forall k :: 0 <= k < |PreOrder(root)| ==> PreOrder(root)[k].depth <= UpdateFromRoot(root).maxDepth
    ensures exists k :: 0 <= k < |PreOrder(root)| && PreOrder(root)[k].depth == UpdateFromRoot(root).maxDepth
    ensures UpdateFromRoot(root).functions == CountWhere(IsFunctionType, PreOrder(root))
    ensures UpdateFromRoot(root).controlStructures == CountWhere(IsControlType, PreOrder(root))
  {
    CollectStatsIsFlat(root);
    TypeNamesSize(PreOrder(root));
    var ds := Depths(PreOrder(root));
    assert Max(ds) in ds;
  }

  // ---------------------------------------------------------------------------
  // Builder
  // ---------------------------------------------------------------------------

  /** Every child sits one level below its parent, under its parent's scope. */
  predicate WellFormed(n: Node)
    decreases n
  {
    forall k :: 0 <= k < |n.children| ==>
      && n.children[k].depth == n.depth + 1
      && n.children[k].scopePath == ChildScopePath(n.scopePath, n.children[k].name)
      && WellFormed(n.children[k])
  }

  /** A path of child indices that leads to a node. */
  predicate ValidPath(n: Node, path: seq<nat>)
    decreases |path|
  {
    |path| == 0 || (path[0] < |n.children| && ValidPath(n.children[path[0]], path[1..]))
  }

  function At(n: Node, path: seq<nat>): Node
    requires ValidPath(n, path)
    decreases |path|
  {
    if |path| == 0 then n else At(n.children[path[0]], path[1..])
  }

  /** The tree with `child` added (by `add_child`) below the node at `path`. */
  function AppendAt(n: Node, path: seq<nat>, child: Node): (r: Node)
    requires ValidPath(n, path)
    ensures |r.children| == |n.children| + (if |path| == 0 then 1 else 0)
    ensures r.(children := n.children) == n
    decreases |path|
  {
    if |path| == 0 then AddChild(n, child)
    else n.(children := n.children[path[0] := AppendAt(n.children[path[0]], path[1..], child)])
  }

  /** The tree with the end line of the node at `path` replaced. */
  function SetEndAt(n: Node, path: seq<nat>, line: nat): (r: Node)
    requires ValidPath(n, path)
    ensures |path| > 0 ==> r.(children := n.children) == n
    ensures |r.children| == |n.children|
    decreases |path|
  {
    if |path| == 0 then n.(endLine := line)
    else n.(children := n.children[path[0] := SetEndAt(n.children[path[0]], path[1..], line)])
  }

  lemma {:induction false} AppendAtFacts(n: Node, path: seq<nat>, child: Node)
    requires ValidPath(n, path)
    ensures ValidPath(AppendAt(n, path, child), path)
    ensures ValidPath(AppendAt(n, path, child), path + [|At(n, path).children|])
    ensures At(AppendAt(n, path, child), path) == AddChild(At(n, path), child)
    ensures child.children == [] && WellFormed(n) ==> WellFormed(AppendAt(n, path, child))
    decreases |path|
  {
    var r := AppendAt(n, path, child);
    if |path| == 0 {
      assert ValidPath(r.children[|n.children|], []);
    } else {
      var i := path[0];
      AppendAtFacts(n.children[i], path[1..], child);
      assert (path + [|At(n, path).children|])[1..] == path[1..] + [|At(n, path).children|];
      if child.children == [] && WellFormed(n) {
        forall k | 0 <= k < |r.children|
          ensures r.children[k].depth == r.depth + 1
          ensures r.children[k].scopePath == ChildScopePath(r.scopePath, r.children[k].name)
          ensures WellFormed(r.children[k])
        {
          if k == i {
            assert r.children[k].(children := n.children[k].children) == n.children[k];
          }
        }
      }
    }
  }

  lemma {:induction false} SetEndAtFacts(n: Node, path: seq<nat>, line: nat, q: seq<nat>)
    requires ValidPath(n, path) && ValidPath(n, q)
    ensures ValidPath(SetEndAt(n, path, line), path)
    ensures At(SetEndAt(n, path, line), path).endLine == line
    ensures ValidPath(SetEndAt(n, path, line), q)
    ensures WellFormed(n) ==> WellFormed(SetEndAt(n, path, line))
    decreases |path|
  {
    var r := SetEndAt(n, path, line);
    if |path| == 0 {
      if |q| > 0 {
        assert r.children == n.children;
      }
    } else {
      var i := path[0];
      if |q| > 0 && q[0] == i {
        SetEndAtFacts(n.children[i], path[1..], line, q[1..]);
      } else {
        SetEndAtFacts(n.children[i], path[1..], line, []);
      }
      if WellFormed(n) {
        forall k | 0 <= k < |r.children|
          ensures r.children[k].depth == r.depth + 1
          ensures r.children[k].scopePath == ChildScopePath(r.scopePath, r.children[k].name)
          ensures WellFormed(r.children[k])
        {
          if k == i {
            assert r.children[k].(endLine := n.children[k].endLine, children := n.children[k].children)
              == n.children[k].(children := n.children[k].children) by {
              SetEndTop(n.children[k], path[1..], line);
            }
          }
        }
      }
    }
  }

  lemma {:induction false} SetEndTop(n: Node, path: seq<nat>, line: nat)
    requires ValidPath(n, path)
    ensures SetEndAt(n, path, line).(endLine := n.endLine, children := n.children) == n
  {
  }

  /** `ASTBuilder`: the tree under construction and the index path of the
      current scope. */
  datatype Builder = Builder(root: Node, scope: seq<nat>)

  /** What the builder's encapsulation guarantees: the scope path leads to a
      node, the tree is well formed, and the root is an unpositioned FileRoot. */
  predicate Valid(b: Builder) {
    && ValidPath(b.root, b.scope)
    && WellFormed(b.root)
    && b.root.nodeType == FileRoot && b.root.depth == 0
    && b.root.startLine == 0 && b.root.endLine == 0
  }

  /** `ASTBuilder::new`. */
  function NewBuilder(): (b: Builder)
    ensures Valid(b) && b.scope == [] && b.root.children == []
  {
    Builder(NewNode(FileRoot, ""), [])
  }

  /** `enter_scope`: a new node starting at `line` is added to the current
      scope and becomes the current scope. */
  function EnterScope(b: Builder, t: NodeType, name: string, line: nat): (r: Builder)
    requires Valid(b)
    ensures Valid(r)
    ensures |r.scope| == |b.scope| + 1 && r.scope[..|b.scope|] == b.scope
    ensures At(r.root, r.scope).nodeType == t && At(r.root, r.scope).name == name
    ensures At(r.root, r.scope).startLine == line && At(r.root, r.scope).children == []
    ensures ValidPath(r.root, b.scope)
    ensures |At(r.root, b.scope).children| == |At(b.root, b.scope).children| + 1
    ensures At(r.root, b.scope).children[..|At(b.root, b.scope).children|] == At(b.root, b.scope).children
  {
    var node := NewNode(t, name).(startLine := line);
    var k := |At(b.root, b.scope).children|;
    AppendAtFacts(b.root, b.scope, node);
    var r := Builder(AppendAt(b.root, b.scope, node), b.scope + [k]);
    AtExtend(r.root, b.scope, k);
    r
  }

  lemma {:induction false} AtExtend(n: Node, path: seq<nat>, k: nat)
    requires ValidPath(n, path + [k])
    ensures ValidPath(n, path) && k < |At(n, path).children|
    ensures At(n, path + [k]) == At(n, path).children[k]
    decreases |path|
  {
    if |path| > 0 {
      assert (path + [k])[1..] == path[1..] + [k];
      AtExtend(n.children[path[0]], path[1..], k);
    } else {
      assert (path + [k])[1..] == [];
    }
  }

  /** `exit_scope`: at the root nothing happens; otherwise the current scope
      gets its end line and its parent becomes the current scope. */
  function ExitScope(b: Builder, endLine: nat): (r: Builder)
    requires Valid(b)
    ensures Valid(r)
    ensures |b.scope| == 0 ==> r == b
    ensures |b.scope| > 0 ==> r.scope == b.scope[..|b.scope| - 1]
    ensures |b.scope| > 0 ==> ValidPath(r.root, b.scope) && At(r.root, b.scope).endLine == endLine
  {
    if |b.scope| == 0 then b
    else
      var parent := b.scope[..|b.scope| - 1];
      assert b.scope == parent + [b.scope[|b.scope| - 1]];
      AtExtend(b.root, parent, b.scope[|b.scope| - 1]);
      SetEndAtFacts(b.root, b.scope, endLine, parent);
      Builder(SetEndAt(b.root, b.scope, endLine), parent)
  }

  /** `add_node`: a one-line leaf is added to the current scope, which stays
      current. */
  function AddNode(b: Builder, t: NodeType, name: string, line: nat): (r: Builder)
    requires Valid(b)
    ensures Valid(r)
    ensures r.scope == b.scope
    ensures |At(r.root, r.scope).children| == |At(b.root, b.scope).children| + 1
    ensures At(r.root, r.scope).children[..|At(b.root, b.scope).children|] == At(b.root, b.scope).children
    ensures var c := At(r.root, r.scope).children[|At(b.root, b.scope).children|];
      c.nodeType == t && c.name == name && c.startLine == line && c.endLine == line
  {
    var node := NewNode(t, name).(startLine := line, endLine := line);
    AppendAtFacts(b.root, b.scope, node);
    Builder(AppendAt(b.root, b.scope, node), b.scope)
  }

  /** The root of a built tree keeps the range 0..0, so looking up any line
      from 1 on finds nothing. */
  lemma {:induction false} BuiltRootFindsNoLine(b: Builder, line: nat)
    requires Valid(b) && line >= 1
    ensures FindNodeAtLine(b.root, line) == None
  {
  }
}
