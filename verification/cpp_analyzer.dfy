/** The parser-independent part of the C++ analyzer: the complexity
    scan and the AST build. Its line statistics and line finder are the
    ones in `CFamily`. */
module CppAnalyzer {
  import opened Wrappers
  import opened Strs
  import opened CoreTypes
  import opened TextLines
  import opened Ast
  import opened Braces
  import opened Scanners
  import opened AnalysisAst
  import opened CFamily

  const Keywords: seq<string> := [
    "if (", "else if", "else {", "for (", "while (", "do {", "switch (",
    "case ", "catch (", "&&", "||", "? ", "template<", "try {", "throw "]

  lemma KeywordsNonEmpty()
    ensures |Keywords| == 15 && NoEmptyKeyword(Keywords)
  {
  }

  /** `calculate_complexity`: one plus every keyword occurrence, and the
      peak brace depth, rated. The count stays at one exactly when no
      keyword occurs. */
  method CalculateComplexity(content: string) returns (c: ComplexityInfo)
    ensures c.cyclomatic == 1 + KeywordTotal(content, Keywords)
    ensures c.cyclomatic == 1 <==>
              (forall k :: 0 <= k < |Keywords| ==> !Contains(content, Keywords[k]))
    ensures forall i :: 0 <= i <= |content| ==> DepthAfter(content[..i]) <= c.maxNestingDepth
    ensures exists i :: 0 <= i <= |content| && DepthAfter(content[..i]) == c.maxNestingDepth
    ensures c == UpdateRating(c)
  {
    KeywordsNonEmpty();
    c := BraceComplexity(content, Keywords, 0);
  }

  function Finder(lines: seq<string>, kw: string): string -> Option<nat> {
    (name: string) => FindDeclLine(lines, name, kw)
  }

  /** `build_ast_from_analysis`: classes placed by their "class" line,
      functions by the name-only rule, functions tagged "is_class_method" skipped. */
  function BuildAstFromAnalysis(functions: seq<FunctionInfo>, classes: seq<ClassInfo>, content: string): (root: Node)
    ensures root.nodeType == FileRoot && |root.children| == |classes| + |Untagged(functions, "is_class_method")|
    ensures ClassScopesAsPromised(root.children[..|classes|], classes, Finder(Lines(content), "class"))
    ensures FunctionLeavesAsPromised(root.children[|classes|..], Untagged(functions, "is_class_method"), Finder(Lines(content), ""))
  {
    var lines := Lines(content);
    BuildAstShape(classes, functions, Finder(lines, "class"), Finder(lines, ""), "is_class_method");
    BuildAst(classes, functions, Finder(lines, "class"), Finder(lines, ""), "is_class_method")
  }
}
