/** The parser-independent part of the Go analyzer: the complexity
    scan and the AST build. Its line statistics and line finder are the
    ones in `CFamily`. */
module GoAnalyzer {
  import opened Wrappers
  import opened Strs
  import opened CoreTypes
  import opened TextLines
  import opened Ast
  import opened Braces
  import opened Scanners
  import opened AnalysisAst
  import opened CFamily

  const Keywords: seq<string> := [
    "if ", "else ", "for ", "switch ", "case ", "select ", "go ", "defer ",
    "&&", "||", "?"]

  lemma KeywordsNonEmpty()
    ensures |Keywords| == 11 && NoEmptyKeyword(Keywords)
  {
  }

  /** `calculate_complexity`: one plus every keyword occurrence, and the
      peak brace depth, rated. The count stays at one exactly when no
      keyword occurs. */
  method CalculateComplexity(content: string) returns (c: ComplexityInfo)
    ensures c.cyclomatic == 1 + KeywordTotal(content, Keywords)
    ensures c.cyclomatic == 1 <==>
              (forall k :: 0 <= k < |Keywords| ==> !Contains(content, Keywords[k]))
    ensures forall i :: 0 <= i <= |content| ==> DepthAfter(content[..i]) <= c.maxNestingDepth
    ensures exists i :: 0 <= i <= |content| && DepthAfter(content[..i]) == c.maxNestingDepth
    ensures c == UpdateRating(c)
  {
    KeywordsNonEmpty();
    c := BraceComplexity(content, Keywords, 0);
  }

  function Finder(lines: seq<string>, kw: string): string -> Option<nat> {
    (name: string) => FindPrefixLine(lines, name, kw)
  }

  /** `build_ast_from_analysis`: classes placed by their "type" line,
      functions by the "func" rule, functions tagged "is_method" skipped. */
  function BuildAstFromAnalysis(functions: seq<FunctionInfo>, classes: seq<ClassInfo>, content: string): (root: Node)
    ensures root.nodeType == FileRoot && |root.children| == |classes| + |Untagged(functions, "is_method")|
    ensures ClassScopesAsPromised(root.children[..|classes|], classes, Finder(Lines(content), "type"))
    ensures FunctionLeavesAsPromised(root.children[|classes|..], Untagged(functions, "is_method"), Finder(Lines(content), "func"))
  {
    var lines := Lines(content);
    BuildAstShape(classes, functions, Finder(lines, "type"), Finder(lines, "func"), "is_method");
    BuildAst(classes, functions, Finder(lines, "type"), Finder(lines, "func"), "is_method")
  }
}
