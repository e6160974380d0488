/** The syntax tree of the workspace analyzer (`nekocode/src/ast.rs`): node
    kinds, type counts, depth, statistics and the `::` path query. Trees are
    given values here; building them from a tree-sitter parse is not part of
    this model. */
module WorkspaceAst {
  import opened Wrappers
  import opened Strs
  import opened Seqs

  datatype NodeType =
    Program | Function | Class | Method | Variable | Import | Export
    | IfStatement | ForLoop | WhileLoop | SwitchStatement | TryStatement
    | Block | Expression | Identifier | Literal | Comment | Other(kind: string)

  /** The tree-sitter node kinds of each variant. */
  const ProgramKinds: set<string> := {"program", "source_file", "module"}
  const FunctionKinds: set<string> := {"function_declaration", "function_definition", "function_item"}
  const ClassKinds: set<string> := {"class_declaration", "class_definition"}
  const MethodKinds: set<string> := {"method_definition", "method_declaration"}
  const VariableKinds: set<string> := {"variable_declaration", "let_declaration", "const_declaration"}
  const ImportKinds: set<string> := {"import_statement", "import_declaration", "use_declaration"}
  const ExportKinds: set<string> := {"export_statement", "export_declaration"}
  const IfKinds: set<string> := {"if_statement", "if_expression"}
  const ForKinds: set<string> := {"for_statement", "for_in_statement", "for_of_statement"}
  const WhileKinds: set<string> := {"while_statement", "while_expression"}
  const SwitchKinds: set<string> := {"switch_statement", "match_expression"}
  const TryKinds: set<string> := {"try_statement", "try_expression"}
  const BlockKinds: set<string> := {"block", "block_statement", "statement_block"}
  const ExpressionKinds: set<string> := {"expression", "expression_statement"}
  const IdentifierKinds: set<string> := {"identifier"}
  const LiteralKinds: set<string> := {"string_literal", "number_literal", "boolean_literal", "null_literal"}
  const CommentKinds: set<string> := {"comment", "line_comment", "block_comment"}

  /** The tree-sitter node kinds that have a variant of their own. */
  const KnownKinds: set<string> :=
    ProgramKinds + FunctionKinds + ClassKinds + MethodKinds
    + VariableKinds + ImportKinds + ExportKinds + IfKinds
    + ForKinds + WhileKinds + SwitchKinds + TryKinds
    + BlockKinds + ExpressionKinds + IdentifierKinds + LiteralKinds
    + CommentKinds

  /** `ASTNode::map_node_kind`: total; a kind without a variant of its own
      becomes `Other` carrying the kind unchanged. */
  function MapNodeKind(kind: string): (t: NodeType)
    ensures t.Other? <==> kind !in KnownKinds
    ensures t.Other? ==> t.kind == kind
  {
    if kind in ProgramKinds then Program
    else if kind in FunctionKinds then Function
    else if kind in ClassKinds then Class
    else if kind in MethodKinds then Method
    else if kind in VariableKinds then Variable
    else if kind in ImportKinds then Import
    else if kind in ExportKinds then Export
    else if kind in IfKinds then IfStatement
    else if kind in ForKinds then ForLoop
    else if kind in WhileKinds then WhileLoop
    else if kind in SwitchKinds then SwitchStatement
    else if kind in TryKinds then TryStatement
    else if kind in BlockKinds then Block
    else if kind in ExpressionKinds then Expression
    else if kind in IdentifierKinds then Identifier
    else if kind in LiteralKinds then Literal
    else if kind in CommentKinds then Comment
    else Other(kind)
  }

  datatype Node = Node(
    nodeType: NodeType,
    text: string,
    startLine: nat,
    endLine: nat,
    startColumn: nat,
    endColumn: nat,
    children: seq<Node>,
    metadata: map<string, string>)

  /** `ASTNode::new`. */
  function NewNode(t: NodeType): (n: Node)
    ensures n.nodeType == t && n.text == "" && n.children == [] && n.metadata == map[]
    ensures n.startLine == 0 && n.endLine == 0 && n.startColumn == 0 && n.endColumn == 0
  {
    Node(t, "", 0, 0, 0, 0, [], map[])
  }

  // ---------------------------------------------------------------------------
  // Traversals
  // ---------------------------------------------------------------------------

  /** Every node of the tree, the root first, in depth-first pre-order. */
  function PreOrder(n: Node): (r: seq<Node>)
    ensures |r| >= 1 && r[0] == n
    decreases n, 1
  {
    [n] + PreOrderAll(n.children)
  }

  function PreOrderAll(cs: seq<Node>): seq<Node>
    decreases cs, 0
  {
    if |cs| == 0 then [] else PreOrder(cs[0]) + PreOrderAll(cs[1..])
  }

  function IsType(t: NodeType): Node -> bool {
    (n: Node) => n.nodeType == t
  }

  /** `ASTNode::count_node_type`: the receiver counts when it has type `t`. */
  function CountNodeType(n: Node, t: NodeType): nat
    decreases n, 1
  {
    (if n.nodeType == t then 1 else 0) + CountAll(n.children, t)
  }

  function CountAll(cs: seq<Node>, t: NodeType): nat
    decreases cs, 0
  {
    if |cs| == 0 then 0 else CountNodeType(cs[0], t) + CountAll(cs[1..], t)
  }

  /** `ASTNode::find_nodes_by_type`: the receiver first when it has type `t`,
      then the matches of each child subtree. */
  function FindNodesByType(n: Node, t: NodeType): seq<Node>
    decreases n, 1
  {
    (if n.nodeType == t then [n] else []) + FindAll(n.children, t)
  }

  function FindAll(cs: seq<Node>, t: NodeType): seq<Node>
    decreases cs, 0
  {
    if |cs| == 0 then [] else FindNodesByType(cs[0], t) + FindAll(cs[1..], t)
  }

  lemma {:induction false} FindIsFilter(n: Node, t: NodeType)
    ensures FindNodesByType(n, t) == Filter(IsType(t), PreOrder(n))
    ensures CountNodeType(n, t) == |FindNodesByType(n, t)|
    decreases n, 1
  {
    FindAllIsFilter(n.children, t);
    FilterAppend(IsType(t), [n], PreOrderAll(n.children));
  }

  lemma {:induction false} FindAllIsFilter(cs: seq<Node>, t: NodeType)
    ensures FindAll(cs, t) == Filter(IsType(t), PreOrderAll(cs))
    ensures CountAll(cs, t) == |FindAll(cs, t)|
    decreases cs, 0
  {
    if |cs| > 0 {
      FindIsFilter(cs[0], t);
      FindAllIsFilter(cs[1..], t);
      FilterAppend(IsType(t), PreOrder(cs[0]), PreOrderAll(cs[1..]));
    }
  }

  /** The nodes found are exactly the nodes of type `t`, the receiver
      included, in pre-order, and there are `count_node_type` of them. */
  lemma {:induction false} FindSpec(n: Node, t: NodeType)
    ensures IsFilterOf(FindNodesByType(n, t), PreOrder(n), IsType(t))
    ensures |FindNodesByType(n, t)| == CountNodeType(n, t)
  {
    FindIsFilter(n, t);
    FilterIsFilterOf(IsType(t), PreOrder(n));
  }

  // ---------------------------------------------------------------------------
  // Depth
  // ---------------------------------------------------------------------------

  /** `ASTNode::depth`: 1 for a leaf, otherwise one more than the deepest child. */
  function Depth(n: Node): (d: nat)
    ensures d >= 1
    decreases n, 1
  {
    if |n.children| == 0 then 1 else 1 + MaxDepth(n.children)
  }

  function MaxDepth(cs: seq<Node>): nat
    decreases cs, 0
  {
    if |cs| == 0 then 0
    else
      var d, rest := Depth(cs[0]), MaxDepth(cs[1..]);
      if d >= rest then d else rest
  }

  /** The depth is one more than the deepest child: deeper than every child,
      and exactly one deeper than some child. */
  lemma {:induction false} DepthSpec(n: Node)
    ensures forall k :: 0 <= k < |n.children| ==> Depth(n.children[k]) < Depth(n)
    ensures |n.children| > 0 ==> exists k :: 0 <= k < |n.children| && Depth(n.children[k]) + 1 == Depth(n)
  {
    MaxDepthSpec(n.children);
  }

  /** The largest depth among the children is reached by one of them. */
  lemma {:induction false} MaxDepthSpec(cs: seq<Node>)
    ensures forall k :: 0 <= k < |cs| ==> Depth(cs[k]) <= MaxDepth(cs)
    ensures |cs| > 0 ==> exists k :: 0 <= k < |cs| && Depth(cs[k]) == MaxDepth(cs)
    decreases |cs|
  {
    if |cs| > 0 {
      var rest := cs[1..];
      MaxDepthSpec(rest);
      forall k | 1 <= k < |cs| ensures Depth(cs[k]) <= MaxDepth(cs) {
        assert cs[k] == rest[k - 1];
      }
      if Depth(cs[0]) < MaxDepth(rest) {
        var k :| 0 <= k < |rest| && Depth(rest[k]) == MaxDepth(rest);
        assert cs[k + 1] == rest[k];
      }
    }
  }

  /** A tree is never deeper than it has nodes. */
  lemma {:induction false} DepthAtMostSize(n: Node)
    ensures Depth(n) <= |PreOrder(n)|
    decreases n, 1
  {
    if |n.children| > 0 {
      DepthAllAtMostSize(n.children);
    }
  }

  lemma {:induction false} DepthAllAtMostSize(cs: seq<Node>)
    ensures MaxDepth(cs) <= |PreOrderAll(cs)|
    decreases cs, 0
  {
    if |cs| > 0 {
      DepthAtMostSize(cs[0]);
      DepthAllAtMostSize(cs[1..]);
    }
  }

  // ---------------------------------------------------------------------------
  // Statistics
  // ---------------------------------------------------------------------------

  /** `ASTStatistics`; the per-type count map is a multiset of type names. */
  datatype Stats = Stats(
    totalNodes: nat,
    maxDepth: nat,
    nodeCounts: multiset<string>,
    complexityScore: nat)

  /** The key a node is counted under: the kind for `Other`, otherwise the
      variant's name as `{:?}` prints it. */
  function TypeName(t: NodeType): string {
    match t
    case Program => "Program"
    case Function => "Function"
    case Class => "Class"
    case Method => "Method"
    case Variable => "Variable"
    case Import => "Import"
    case Export => "Export"
    case IfStatement => "IfStatement"
    case ForLoop => "ForLoop"
    case WhileLoop => "WhileLoop"
    case SwitchStatement => "SwitchStatement"
    case TryStatement => "TryStatement"
    case Block => "Block"
    case Expression => "Expression"
    case Identifier => "Identifier"
    case Literal => "Literal"
    case Comment => "Comment"
    case Other(s) => s
  }

  /** `calculate_node_counts`: one more node and one more count for its type
      name, then the children in order. */
  function CountNodes(acc: Stats, n: Node): Stats
    decreases n, 1
  {
    var here := acc.(totalNodes := acc.totalNodes + 1,
                     nodeCounts := acc.nodeCounts + multiset{TypeName(n.nodeType)});
    CountNodesAll(here, n.children)
  }

  function CountNodesAll(acc: Stats, cs: seq<Node>): Stats
    decreases cs, 0
  {
    if |cs| == 0 then acc else CountNodesAll(CountNodes(acc, cs[0]), cs[1..])
  }

  /** Complexity points of one node: 1 for `if` and `try`, 2 for loops and
      switches. */
  function Points(t: NodeType): nat {
    match t
    case IfStatement => 1
    case ForLoop => 2
    case WhileLoop => 2
    case SwitchStatement => 2
    case TryStatement => 1
    case _ => 0
  }

  /** `calculate_complexity`: the points of every node of the tree. */
  function Complexity(n: Node): nat
    decreases n, 1
  {
    Points(n.nodeType) + ComplexityAll(n.children)
  }

  function ComplexityAll(cs: seq<Node>): nat
    decreases cs, 0
  {
    if |cs| == 0 then 0 else Complexity(cs[0]) + ComplexityAll(cs[1..])
  }

  /** `ASTStatistics::from_ast`. */
  function FromAst(ast: Node): Stats {
    var counted := CountNodes(Stats(0, Depth(ast), multiset{}, 0), ast);
    counted.(complexityScore := counted.complexityScore + Complexity(ast))
  }

  /** Type names of a node list, with multiplicity. */
  function TypeNames(ns: seq<Node>): (m: multiset<string>)
    ensures |m| == |ns|
    decreases |ns|
  {
    if |ns| == 0 then multiset{} else multiset{TypeName(ns[0].nodeType)} + TypeNames(ns[1..])
  }

  lemma {:induction false} TypeNamesAppend(a: seq<Node>, b: seq<Node>)
    ensures TypeNames(a + b) == TypeNames(a) + TypeNames(b)
    decreases |a|
  {
    if |a| > 0 {
      assert (a + b)[1..] == a[1..] + b;
      TypeNamesAppend(a[1..], b);
    } else {
      assert a + b == b;
    }
  }

  lemma {:induction false} CountNodesSpec(acc: Stats, n: Node)
    ensures CountNodes(acc, n)
            == acc.(totalNodes := acc.totalNodes + |PreOrder(n)|,
                    nodeCounts := acc.nodeCounts + TypeNames(PreOrder(n)))
    decreases n, 1
  {
    var here := acc.(totalNodes := acc.totalNodes + 1,
                     nodeCounts := acc.nodeCounts + multiset{TypeName(n.nodeType)});
    CountNodesAllSpec(here, n.children);
    TypeNamesAppend([n], PreOrderAll(n.children));
  }

  lemma {:induction false} CountNodesAllSpec(acc: Stats, cs: seq<Node>)
    ensures CountNodesAll(acc, cs)
            == acc.(totalNodes := acc.totalNodes + |PreOrderAll(cs)|,
                    nodeCounts := acc.nodeCounts + TypeNames(PreOrderAll(cs)))
    decreases cs, 0
  {
    if |cs| > 0 {
      CountNodesSpec(acc, cs[0]);
      CountNodesAllSpec(CountNodes(acc, cs[0]), cs[1..]);
      TypeNamesAppend(PreOrder(cs[0]), PreOrderAll(cs[1..]));
    }
  }

  /** The complexity score in terms of node-type counts. */
  function WeightedCount(n: Node): nat {
    CountNodeType(n, IfStatement) + 2 * (CountNodeType(n, ForLoop) + CountNodeType(n, WhileLoop))
    + 2 * CountNodeType(n, SwitchStatement) + CountNodeType(n, TryStatement)
  }

  function WeightedCountAll(cs: seq<Node>): nat {
    CountAll(cs, IfStatement) + 2 * (CountAll(cs, ForLoop) + CountAll(cs, WhileLoop))
    + 2 * CountAll(cs, SwitchStatement) + CountAll(cs, TryStatement)
  }

  lemma {:induction false} ComplexityIsWeighted(n: Node)
    ensures Complexity(n) == WeightedCount(n)
    decreases n, 1
  {
    ComplexityAllIsWeighted(n.children);
  }

  lemma {:induction false} ComplexityAllIsWeighted(cs: seq<Node>)
    ensures ComplexityAll(cs) == WeightedCountAll(cs)
    decreases cs, 0
  {
    if |cs| > 0 {
      ComplexityIsWeighted(cs[0]);
      ComplexityAllIsWeighted(cs[1..]);
    }
  }

  /** What `from_ast` reports: the node count, per-type counts that add up to
      it, the tree's depth, and the weighted count of control structures. */
  lemma {:induction false} FromAstSpec(ast: Node)
    ensures FromAst(ast).totalNodes == |PreOrder(ast)|
    ensures FromAst(ast).nodeCounts == TypeNames(PreOrder(ast))
    ensures |FromAst(ast).nodeCounts| == FromAst(ast).totalNodes
    ensures FromAst(ast).maxDepth == Depth(ast)
    ensures FromAst(ast).complexityScore
            == CountNodeType(ast, IfStatement)
               + 2 * (CountNodeType(ast, ForLoop) + CountNodeType(ast, WhileLoop))
               + 2 * CountNodeType(ast, SwitchStatement) + CountNodeType(ast, TryStatement)
  {
    CountNodesSpec(Stats(0, Depth(ast), multiset{}, 0), ast);
    ComplexityIsWeighted(ast);
  }

  // ---------------------------------------------------------------------------
  // Path query
  // ---------------------------------------------------------------------------

  /** A node answers to a path segment by its text or its "name" metadata. */
  predicate Matches(n: Node, target: string) {
    n.text == target || ("name" in n.metadata && n.metadata["name"] == target)
  }

  /** `find_by_path_parts`: when the node answers to the first segment, the
      rest of the path is looked up among its children (or the node itself is
      the answer for the last segment); failing that, the whole path is looked
      up in each child in turn. */
  function FindByPathParts(n: Node, parts: seq<string>): (r: Option<Node>)
    ensures r.Some? ==> r.value in PreOrder(n)
    ensures r.Some? && |parts| > 0 ==> Matches(r.value, parts[|parts| - 1])
    decreases n, 1
  {
    if |parts| == 0 then Some(n)
    else
      var here :=
        if Matches(n, parts[0]) then
          (if |parts| == 1 then Some(n) else FirstInChildren(n.children, parts[1..]))
        else None;
      if here.Some? then here else FirstInChildren(n.children, parts)
  }

  function FirstInChildren(cs: seq<Node>, parts: seq<string>): (r: Option<Node>)
    ensures r.Some? ==> r.value in PreOrderAll(cs)
    ensures r.Some? && |parts| > 0 ==> Matches(r.value, parts[|parts| - 1])
    decreases cs, 0
  {
    if |cs| == 0 then None
    else
      var f := FindByPathParts(cs[0], parts);
      if f.Some? then f else FirstInChildren(cs[1..], parts)
  }

  /** `ASTBuilder::query_by_path`: the path split at "::". */
  function QueryByPath(ast: Node, path: string): (r: Option<Node>)
    ensures r.Some? ==> r.value in PreOrder(ast)
  {
    FindByPathParts(ast, Split(path, "::"))
  }

  /** The first node of a list that answers to `target`. */
  function FirstMatch(ns: seq<Node>, target: string): Option<Node>
    decreases |ns|
  {
    if |ns| == 0 then None
    else if Matches(ns[0], target) then Some(ns[0])
    else FirstMatch(ns[1..], target)
  }

  lemma {:induction false} FirstMatchAppend(a: seq<Node>, b: seq<Node>, target: string)
    ensures FirstMatch(a + b, target)
            == if FirstMatch(a, target).Some? then FirstMatch(a, target) else FirstMatch(b, target)
    decreases |a|
  {
    if |a| > 0 {
      assert (a + b)[1..] == a[1..] + b;
      FirstMatchAppend(a[1..], b, target);
    } else {
      assert a + b == b;
    }
  }

  lemma {:induction false} SingleSegment(n: Node, target: string)
    ensures FindByPathParts(n, [target]) == FirstMatch(PreOrder(n), target)
    decreases n, 1
  {
    SingleSegmentAll(n.children, target);
    FirstMatchAppend([n], PreOrderAll(n.children), target);
  }

  lemma {:induction false} SingleSegmentAll(cs: seq<Node>, target: string)
    ensures FirstInChildren(cs, [target]) == FirstMatch(PreOrderAll(cs), target)
    decreases cs, 0
  {
    if |cs| > 0 {
      SingleSegment(cs[0], target);
      SingleSegmentAll(cs[1..], target);
      FirstMatchAppend(PreOrder(cs[0]), PreOrderAll(cs[1..]), target);
    }
  }

  /** A path without "::" finds the first node in pre-order whose text or
      name equals it. */
  lemma {:induction false} QueryPlainName(ast: Node, name: string)
    requires !Contains(name, "::")
    ensures QueryByPath(ast, name) == FirstMatch(PreOrder(ast), name)
  {
    assert Split(name, "::") == [name];
    SingleSegment(ast, name);
  }
}
