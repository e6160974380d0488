/** The parser-independent part of the Rust analyzer: the complexity
    scan and the AST build. Its line statistics and line finder are the
    ones in `CFamily`. */
module RustAnalyzer {
  import opened Wrappers
  import opened Strs
  import opened CoreTypes
  import opened TextLines
  import opened Ast
  import opened Braces
  import opened Scanners
  import opened AnalysisAst
  import opened CFamily

  const Keywords: seq<string> := [
    "if ", "else ", "for ", "while ", "loop ", "match ", "if let",
    "while let", "&&", "||", "?", "async ", "await"]

  lemma KeywordsNonEmpty()
    ensures |Keywords| == 13 && NoEmptyKeyword(Keywords)
  {
  }

  /** `calculate_complexity`: one, plus every keyword occurrence, plus every
      match arm ` => `, and the peak brace depth, rated. The count stays at
      one exactly when no keyword and no arm occurs. */
  method CalculateComplexity(content: string) returns (c: ComplexityInfo)
    ensures c.cyclomatic == 1 + KeywordTotal(content, Keywords) + Count(content, " => ")
    ensures c.cyclomatic == 1 <==>
              (forall k :: 0 <= k < |Keywords| ==> !Contains(content, Keywords[k]))
              && !Contains(content, " => ")
    ensures forall i :: 0 <= i <= |content| ==> DepthAfter(content[..i]) <= c.maxNestingDepth
    ensures exists i :: 0 <= i <= |content| && DepthAfter(content[..i]) == c.maxNestingDepth
    ensures c == UpdateRating(c)
  {
    KeywordsNonEmpty();
    CountZeroIff(content, " => ");
    c := BraceComplexity(content, Keywords, Count(content, " => "));
  }

  function Finder(lines: seq<string>, kw: string): string -> Option<nat> {
    (name: string) => FindPrefixLine(lines, name, kw)
  }

  /** `build_ast_from_analysis`: classes placed by their "struct" line,
      functions by the "fn" rule, functions tagged "is_method" skipped. */
  function BuildAstFromAnalysis(functions: seq<FunctionInfo>, classes: seq<ClassInfo>, content: string): (root: Node)
    ensures root.nodeType == FileRoot && |root.children| == |classes| + |Untagged(functions, "is_method")|
    ensures ClassScopesAsPromised(root.children[..|classes|], classes, Finder(Lines(content), "struct"))
    ensures FunctionLeavesAsPromised(root.children[|classes|..], Untagged(functions, "is_method"), Finder(Lines(content), "fn"))
  {
    var lines := Lines(content);
    BuildAstShape(classes, functions, Finder(lines, "struct"), Finder(lines, "fn"), "is_method");
    BuildAst(classes, functions, Finder(lines, "struct"), Finder(lines, "fn"), "is_method")
  }
}
