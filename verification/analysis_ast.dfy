/** `build_ast_from_analysis`, shared by the Python, C++, C#, Rust and Go
    analyzers: one Class scope per class holding one Method node per method,
    then one Function node per function that is not tagged as a method. The
    analyzers differ only in the line finders and the tag they pass in. */
module AnalysisAst {
  import opened Wrappers
  import opened CoreTypes
  import opened Ast
  import opened Scanners
  import Seqs

  /** `find_line_number(..).unwrap_or(fallback)`. */
  function LineOr(found: Option<nat>, fallback: nat): nat {
    if found.Some? then found.value else fallback
  }

  /** Where a class scope starts: the found line, else the parser's line. */
  function ClassStart(c: ClassInfo, classLine: string -> Option<nat>): nat {
    LineOr(classLine(c.name), c.startLine)
  }

  /** Where a class scope ends: never on or before its start line. */
  function ClassEnd(c: ClassInfo, start: nat): nat {
    MaxNat(c.endLine, start + 1)
  }

  /** A method line is moved down to the class start when it lies above it. */
  function MethodStart(m: FunctionInfo, start: nat): nat {
    MaxNat(m.startLine, start)
  }

  /** Where a function node goes: the found line, else the parser's line but
      at least 1. */
  function FunctionStart(f: FunctionInfo, funcLine: string -> Option<nat>): nat {
    LineOr(funcLine(f.name), MaxNat(f.startLine, 1))
  }

  /** `matches!(f.metadata.get(tag), Some(v) if v == "true")`. */
  predicate Tagged(f: FunctionInfo, tag: string) {
    tag in f.metadata && f.metadata[tag] == "true"
  }

  // ---------------------------------------------------------------------------
  // The expected tree
  // ---------------------------------------------------------------------------

  /** The method leaf, two levels below the root, under its class's scope. */
  function MethodNode(m: FunctionInfo, start: nat, classScope: string): Node {
    var line := MethodStart(m, start);
    Node(Method, m.name, m.name, line, line, 0, 0, 2, ChildScopePath(classScope, m.name), [], map[], None)
  }

  function MethodNodes(ms: seq<FunctionInfo>, start: nat, classScope: string): (r: seq<Node>)
    ensures |r| == |ms|
    ensures forall j :: 0 <= j < |ms| ==> r[j] == MethodNode(ms[j], start, classScope)
  {
    seq(|ms|, j requires 0 <= j < |ms| => MethodNode(ms[j], start, classScope))
  }

  /** The class scope, a child of the root, holding its methods in order. */
  function ClassNode(c: ClassInfo, start: nat): Node {
    Node(Class, c.name, c.name, start, ClassEnd(c, start), 0, 0, 1, c.name,
         MethodNodes(c.methods, start, c.name), map[], None)
  }

  function ClassNodes(classes: seq<ClassInfo>, classLine: string -> Option<nat>): (r: seq<Node>)
    ensures |r| == |classes|
    ensures forall k :: 0 <= k < |classes| ==> r[k] == ClassNode(classes[k], ClassStart(classes[k], classLine))
  {
    seq(|classes|, k requires 0 <= k < |classes| => ClassNode(classes[k], ClassStart(classes[k], classLine)))
  }

  /** The function leaf, a child of the root. */
  function FunctionNode(f: FunctionInfo, funcLine: string -> Option<nat>): Node {
    var line := FunctionStart(f, funcLine);
    Node(Function, f.name, f.name, line, line, 0, 0, 1, f.name, [], map[], None)
  }

  /** One function leaf per untagged function, in order. */
  function FunctionNodes(fs: seq<FunctionInfo>, funcLine: string -> Option<nat>, tag: string): seq<Node>
    decreases |fs|
  {
    if |fs| == 0 then []
    else (if Tagged(fs[0], tag) then [] else [FunctionNode(fs[0], funcLine)]) + FunctionNodes(fs[1..], funcLine, tag)
  }

  /** The tree `build_ast_from_analysis` is meant to produce: an unpositioned
      file root holding the class scopes, then the top-level functions. */
  function ExpectedTree(classes: seq<ClassInfo>, functions: seq<FunctionInfo>,
                        classLine: string -> Option<nat>, funcLine: string -> Option<nat>, tag: string): Node {
    NewNode(FileRoot, "").(children := ClassNodes(classes, classLine) + FunctionNodes(functions, funcLine, tag))
  }

  // ---------------------------------------------------------------------------
  // The builder run
  // ---------------------------------------------------------------------------

  /** The method loop inside a class scope. */
  function AddMethods(b: Builder, ms: seq<FunctionInfo>, start: nat): (r: Builder)
    requires Valid(b)
    ensures Valid(r) && r.scope == b.scope
    decreases |ms|
  {
    if |ms| == 0 then b
    else AddMethods(AddNode(b, Method, ms[0].name, MethodStart(ms[0], start)), ms[1..], start)
  }

  /** One pass of the class loop: enter the class scope, add the methods,
      exit at the class end. */
  function AddClass(b: Builder, c: ClassInfo, start: nat): (r: Builder)
    requires Valid(b) && b.scope == []
    ensures Valid(r) && r.scope == []
  {
    ExitScope(AddMethods(EnterScope(b, Class, c.name, start), c.methods, start), ClassEnd(c, start))
  }

  /** The class loop. */
  function AddClasses(b: Builder, classes: seq<ClassInfo>, classLine: string -> Option<nat>): (r: Builder)
    requires Valid(b) && b.scope == []
    ensures Valid(r) && r.scope == []
    decreases |classes|
  {
    if |classes| == 0 then b
    else AddClasses(AddClass(b, classes[0], ClassStart(classes[0], classLine)), classes[1..], classLine)
  }

  /** The function loop: a leaf per function not tagged as a method. */
  function AddFunctions(b: Builder, fs: seq<FunctionInfo>, funcLine: string -> Option<nat>, tag: string): (r: Builder)
    requires Valid(b)
    ensures Valid(r) && r.scope == b.scope
    decreases |fs|
  {
    if |fs| == 0 then b
    else if Tagged(fs[0], tag) then AddFunctions(b, fs[1..], funcLine, tag)
    else AddFunctions(AddNode(b, Function, fs[0].name, FunctionStart(fs[0], funcLine)), fs[1..], funcLine, tag)
  }

  /** `build_ast_from_analysis`. */
  function BuildAst(classes: seq<ClassInfo>, functions: seq<FunctionInfo>,
                    classLine: string -> Option<nat>, funcLine: string -> Option<nat>, tag: string): Node
  {
    AddFunctions(AddClasses(NewBuilder(), classes, classLine), functions, funcLine, tag).root
  }

  // ---------------------------------------------------------------------------
  // The builder run produces the expected tree
  // ---------------------------------------------------------------------------

  function Leaf(t: NodeType, name: string, line: nat): Node {
    NewNode(t, name).(startLine := line, endLine := line)
  }

  /** `add_node` at the root appends the adopted leaf to the root. */
  lemma {:induction false} AddNodeAtRoot(b: Builder, t: NodeType, name: string, line: nat)
    requires Valid(b) && b.scope == []
    ensures AddNode(b, t, name, line).root == b.root.(children := b.root.children + [Adopted(b.root, Leaf(t, name, line))])
  {
  }

  /** The root with its child `k` replaced. */
  function WithChild(root: Node, k: nat, n: Node): Node
    requires k < |root.children|
  {
    root.(children := root.children[k := n])
  }

  /** A class node with method leaves appended under its scope. */
  function Filled(cls: Node, ms: seq<FunctionInfo>, start: nat): Node {
    cls.(children := cls.children + MethodNodes(ms, start, cls.scopePath))
  }

  /** `add_node` inside a root child changes that child only. */
  lemma {:induction false} AddNodeInChild(b: Builder, t: NodeType, name: string, line: nat)
    requires Valid(b) && |b.scope| == 1
    ensures b.scope[0] < |b.root.children|
    ensures AddNode(b, t, name, line).root ==
              WithChild(b.root, b.scope[0], AddChild(b.root.children[b.scope[0]], Leaf(t, name, line)))
  {
    var k := b.scope[0];
    var node := Leaf(t, name, line);
    assert b.scope[1..] == [];
    assert AddNode(b, t, name, line).root == AppendAt(b.root, b.scope, node);
    assert AppendAt(b.root.children[k], b.scope[1..], node) == AddChild(b.root.children[k], node);
  }

  /** `exit_scope` from a root child sets that child's end line only. */
  lemma {:induction false} ExitScopeInChild(b: Builder, endLine: nat)
    requires Valid(b) && |b.scope| == 1
    ensures b.scope[0] < |b.root.children|
    ensures ExitScope(b, endLine).root == WithChild(b.root, b.scope[0], b.root.children[b.scope[0]].(endLine := endLine))
  {
    var k := b.scope[0];
    assert b.scope[1..] == [];
    assert ExitScope(b, endLine).root == SetEndAt(b.root, b.scope, endLine);
    assert SetEndAt(b.root.children[k], b.scope[1..], endLine) == b.root.children[k].(endLine := endLine);
  }

  /** The method loop fills the class scope it runs in with the method leaves. */
  lemma {:induction false} AddMethodsSpec(b: Builder, ms: seq<FunctionInfo>, start: nat)
    requires Valid(b) && |b.scope| == 1
    ensures b.scope[0] < |b.root.children|
    ensures AddMethods(b, ms, start).root ==
              WithChild(b.root, b.scope[0], Filled(b.root.children[b.scope[0]], ms, start))
    decreases |ms|
  {
    var k := b.scope[0];
    assert ValidPath(b.root, b.scope);
    var cls := b.root.children[k];
    if |ms| == 0 {
      assert Filled(cls, ms, start) == cls;
      assert WithChild(b.root, k, cls) == b.root;
    } else {
      var m := ms[0];
      var line := MethodStart(m, start);
      var b1 := AddNode(b, Method, m.name, line);
      AddNodeInChild(b, Method, m.name, line);
      var cls1 := AddChild(cls, Leaf(Method, m.name, line));
      assert b1.root.children[k] == cls1;
      AddMethodsSpec(b1, ms[1..], start);
      assert cls.depth == 1 by {
        assert WellFormed(b.root);
      }
      FilledStep(cls, ms, start);
      assert WithChild(b1.root, k, Filled(cls1, ms[1..], start)) == WithChild(b.root, k, Filled(cls, ms, start));
    }
  }

  /** Adding the first method leaf, then the rest, fills the class scope
      with all of them. */
  lemma {:induction false} FilledStep(cls: Node, ms: seq<FunctionInfo>, start: nat)
    requires cls.depth == 1 && |ms| > 0
    ensures Filled(AddChild(cls, Leaf(Method, ms[0].name, MethodStart(ms[0], start))), ms[1..], start) == Filled(cls, ms, start)
  {
    var first := MethodNode(ms[0], start, cls.scopePath);
    var rest := MethodNodes(ms[1..], start, cls.scopePath);
    assert MethodNodes(ms, start, cls.scopePath) == [first] + rest;
    Seqs.SeqAssoc(cls.children, [first], rest);
  }

  /** One class step: the root gains exactly the expected class node. */
  lemma {:induction false} ClassStep(b: Builder, c: ClassInfo, start: nat)
    requires Valid(b) && b.scope == [] && b.root.scopePath == ""
    ensures AddClass(b, c, start).root == b.root.(children := b.root.children + [ClassNode(c, start)])
  {
    var k := |b.root.children|;
    var entered := EnterScope(b, Class, c.name, start);
    var node := NewNode(Class, c.name).(startLine := start);
    assert entered.root == b.root.(children := b.root.children + [Adopted(b.root, node)]);
    assert entered.scope == [k];
    var cls := entered.root.children[k];
    AddMethodsSpec(entered, c.methods, start);
    var inClass := AddMethods(entered, c.methods, start);
    var filled := Filled(cls, c.methods, start);
    assert inClass.root == WithChild(entered.root, k, filled);
    ExitScopeInChild(inClass, ClassEnd(c, start));
    assert filled.(endLine := ClassEnd(c, start)) == ClassNode(c, start);
    assert WithChild(inClass.root, k, filled.(endLine := ClassEnd(c, start))) == b.root.(children := b.root.children + [ClassNode(c, start)]);
  }

  /** The class loop appends the expected class nodes to the root. */
  lemma {:induction false} AddClassesSpec(b: Builder, classes: seq<ClassInfo>, classLine: string -> Option<nat>)
    requires Valid(b) && b.scope == [] && b.root.scopePath == ""
    ensures AddClasses(b, classes, classLine).root == b.root.(children := b.root.children + ClassNodes(classes, classLine))
    decreases |classes|
  {
    if |classes| == 0 {
      assert b.root.children + ClassNodes(classes, classLine) == b.root.children;
    } else {
      var c := classes[0];
      var start := ClassStart(c, classLine);
      var next := AddClass(b, c, start);
      ClassStep(b, c, start);
      AddClassesSpec(next, classes[1..], classLine);
      ClassNodesCons(classes, classLine);
      Seqs.SeqAssoc(b.root.children, [ClassNode(c, start)], ClassNodes(classes[1..], classLine));
    }
  }

  lemma {:induction false} ClassNodesCons(classes: seq<ClassInfo>, classLine: string -> Option<nat>)
    requires |classes| > 0
    ensures ClassNodes(classes, classLine) ==
              [ClassNode(classes[0], ClassStart(classes[0], classLine))] + ClassNodes(classes[1..], classLine)
  {
  }


  /** The function loop appends the expected function nodes to the root. */
  lemma {:induction false} AddFunctionsSpec(b: Builder, fs: seq<FunctionInfo>, funcLine: string -> Option<nat>, tag: string)
    requires Valid(b) && b.scope == [] && b.root.scopePath == ""
    ensures AddFunctions(b, fs, funcLine, tag).root == b.root.(children := b.root.children + FunctionNodes(fs, funcLine, tag))
    decreases |fs|
  {
    if |fs| == 0 {
      assert b.root.children + FunctionNodes(fs, funcLine, tag) == b.root.children;
    } else if Tagged(fs[0], tag) {
      AddFunctionsSpec(b, fs[1..], funcLine, tag);
      assert AddFunctions(b, fs, funcLine, tag) == AddFunctions(b, fs[1..], funcLine, tag);
      assert FunctionNodes(fs, funcLine, tag) == [] + FunctionNodes(fs[1..], funcLine, tag);
    } else {
      var f := fs[0];
      var b1 := AddNode(b, Function, f.name, FunctionStart(f, funcLine));
      var leaf := FunctionNode(f, funcLine);
      var rest := FunctionNodes(fs[1..], funcLine, tag);
      AddNodeAtRoot(b, Function, f.name, FunctionStart(f, funcLine));
      assert b1.root == b.root.(children := b.root.children + [leaf]);
      AddFunctionsSpec(b1, fs[1..], funcLine, tag);
      assert AddFunctions(b, fs, funcLine, tag) == AddFunctions(b1, fs[1..], funcLine, tag);
      assert FunctionNodes(fs, funcLine, tag) == [leaf] + rest;
      FunctionStep(b.root, b1.root, leaf, rest);
    }
  }

  /** Appending one leaf and then the rest is appending both at once. */
  lemma {:induction false} FunctionStep(root: Node, root1: Node, leaf: Node, rest: seq<Node>)
    requires root1 == root.(children := root.children + [leaf])
    ensures root1.(children := root1.children + rest) == root.(children := root.children + ([leaf] + rest))
  {
    Seqs.SeqAssoc(root.children, [leaf], rest);
  }

  /** The builder run yields exactly the expected tree. */
  lemma {:induction false} BuildAstIsExpected(classes: seq<ClassInfo>, functions: seq<FunctionInfo>,
                                              classLine: string -> Option<nat>, funcLine: string -> Option<nat>, tag: string)
    ensures BuildAst(classes, functions, classLine, funcLine, tag) == ExpectedTree(classes, functions, classLine, funcLine, tag)
  {
    var b0 := NewBuilder();
    var cs := ClassNodes(classes, classLine);
    AddClassesSpec(b0, classes, classLine);
    var b1 := AddClasses(b0, classes, classLine);
    assert b0.root.children + cs == cs;
    assert b1.root == NewNode(FileRoot, "").(children := cs);
    AddFunctionsSpec(b1, functions, funcLine, tag);
  }

  // ---------------------------------------------------------------------------
  // What the expected tree promises
  // ---------------------------------------------------------------------------

  /** The untagged functions, in order. */
  function Untagged(fs: seq<FunctionInfo>, tag: string): (r: seq<FunctionInfo>)
    ensures |r| <= |fs|
    ensures forall j :: 0 <= j < |r| ==> !Tagged(r[j], tag) && r[j] in fs
    ensures forall f :: f in fs && !Tagged(f, tag) ==> f in r
    decreases |fs|
  {
    if |fs| == 0 then []
    else (if Tagged(fs[0], tag) then [] else [fs[0]]) + Untagged(fs[1..], tag)
  }

  /** The function nodes are the untagged functions, one each, in order. */
  lemma {:induction false} FunctionNodesSkipTagged(fs: seq<FunctionInfo>, funcLine: string -> Option<nat>, tag: string)
    ensures |FunctionNodes(fs, funcLine, tag)| == |Untagged(fs, tag)|
    ensures forall j :: 0 <= j < |Untagged(fs, tag)| ==>
      FunctionNodes(fs, funcLine, tag)[j] == FunctionNode(Untagged(fs, tag)[j], funcLine)
    decreases |fs|
  {
    if |fs| > 0 {
      FunctionNodesSkipTagged(fs[1..], funcLine, tag);
    }
  }

  /** Class scopes as promised: one per class, in order, ending after it
      starts, holding one Method leaf per method at or below the class start. */
  predicate ClassScopesAsPromised(ns: seq<Node>, classes: seq<ClassInfo>, classLine: string -> Option<nat>) {
    && |ns| == |classes|
    && forall k :: 0 <= k < |classes| ==>
         var start := ClassStart(classes[k], classLine);
         && ns[k].nodeType == Class && ns[k].name == classes[k].name
         && ns[k].startLine == start && ns[k].endLine > start && ns[k].endLine >= classes[k].endLine
         && |ns[k].children| == |classes[k].methods|
         && forall j :: 0 <= j < |ns[k].children| ==>
              && ns[k].children[j].nodeType == Method && ns[k].children[j].name == classes[k].methods[j].name
              && ns[k].children[j].startLine >= start
              && ns[k].children[j].startLine >= classes[k].methods[j].startLine
  }

  /** Function leaves as promised: one per function, in order, at the found
      line or else at the parser's line but not before line 1. */
  predicate FunctionLeavesAsPromised(ns: seq<Node>, fs: seq<FunctionInfo>, funcLine: string -> Option<nat>) {
    && |ns| == |fs|
    && forall j :: 0 <= j < |fs| ==>
         && ns[j].nodeType == Function && ns[j].name == fs[j].name
         && (funcLine(fs[j].name).Some? ==> ns[j].startLine == funcLine(fs[j].name).value)
         && (funcLine(fs[j].name).None? ==> ns[j].startLine >= 1 && ns[j].startLine >= fs[j].startLine)
  }

  lemma {:induction false} ClassNodesAsPromised(classes: seq<ClassInfo>, classLine: string -> Option<nat>)
    ensures ClassScopesAsPromised(ClassNodes(classes, classLine), classes, classLine)
  {
  }

  lemma {:induction false} FunctionNodesAsPromised(fs: seq<FunctionInfo>, funcLine: string -> Option<nat>, tag: string)
    ensures FunctionLeavesAsPromised(FunctionNodes(fs, funcLine, tag), Untagged(fs, tag), funcLine)
  {
    FunctionNodesSkipTagged(fs, funcLine, tag);
  }

  /** The promises of `build_ast_from_analysis`: an unpositioned file root
      holding the class scopes, then Function leaves for exactly the
      functions that are not tagged as methods. */
  lemma {:induction false} BuildAstShape(classes: seq<ClassInfo>, functions: seq<FunctionInfo>,
                                         classLine: string -> Option<nat>, funcLine: string -> Option<nat>, tag: string)
    ensures var root := BuildAst(classes, functions, classLine, funcLine, tag);
      && root.nodeType == FileRoot && root.startLine == 0 && root.endLine == 0
      && |root.children| == |classes| + |Untagged(functions, tag)|
      && ClassScopesAsPromised(root.children[..|classes|], classes, classLine)
      && FunctionLeavesAsPromised(root.children[|classes|..], Untagged(functions, tag), funcLine)
  {
    BuildAstIsExpected(classes, functions, classLine, funcLine, tag);
    var cs := ClassNodes(classes, classLine);
    var fns := FunctionNodes(functions, funcLine, tag);
    ClassNodesAsPromised(classes, classLine);
    FunctionNodesAsPromised(functions, funcLine, tag);
    assert (cs + fns)[..|classes|] == cs;
    assert (cs + fns)[|classes|..] == fns;
  }

  /** `analyze` attaches the tree only when the parser found some function
      or some class; otherwise the result carries none. */
  function AttachAst(functions: seq<FunctionInfo>, classes: seq<ClassInfo>, root: Node): (r: Option<Node>)
    ensures r.Some? <==> |functions| > 0 || |classes| > 0
    ensures r.Some? ==> r.value == root
  {
    if |functions| > 0 || |classes| > 0 then Some(root) else None
  }
}
