/** The parser-independent part of the C# analyzer: the complexity
    scan and the AST build. Its line statistics and line finder are the
    ones in `CFamily`. */
module CSharpAnalyzer {
  import opened Wrappers
  import opened Strs
  import opened CoreTypes
  import opened TextLines
  import opened Ast
  import opened Braces
  import opened Scanners
  import opened AnalysisAst
  import opened CFamily

  const Keywords: seq<string> := [
    "if (", "else if", "else {", "for (", "foreach (", "while (", "do {",
    "switch (", "case ", "catch (", "&&", "||", "? ", "??", "async ",
    "await ", "yield ", "try {", "throw "]

  /** The LINQ keywords, each counted and halved on its own. */
  const LinqKeywords: seq<string> := ["from ", "where ", "select ", "group ", "join ", "orderby "]

  lemma KeywordsNonEmpty()
    ensures |Keywords| == 19 && NoEmptyKeyword(Keywords)
  {
  }

  /** `calculate_complexity`: one, plus every keyword occurrence, plus half
      the occurrences of each LINQ keyword rounded down, and the peak brace
      depth, rated. The count stays at one exactly when no keyword occurs
      and no LINQ keyword occurs twice. */
  method CalculateComplexity(content: string) returns (c: ComplexityInfo)
    ensures c.cyclomatic == 1 + KeywordTotal(content, Keywords) + HalvedTotal(content, LinqKeywords)
    ensures c.cyclomatic == 1 <==>
              (forall k :: 0 <= k < |Keywords| ==> !Contains(content, Keywords[k]))
              && (forall k :: 0 <= k < |LinqKeywords| ==> Count(content, LinqKeywords[k]) <= 1)
    ensures forall i :: 0 <= i <= |content| ==> DepthAfter(content[..i]) <= c.maxNestingDepth
    ensures exists i :: 0 <= i <= |content| && DepthAfter(content[..i]) == c.maxNestingDepth
    ensures c == UpdateRating(c)
  {
    KeywordsNonEmpty();
    HalvedTotalZeroIff(content, LinqKeywords);
    c := BraceComplexity(content, Keywords, HalvedTotal(content, LinqKeywords));
  }

  function Finder(lines: seq<string>, kw: string): string -> Option<nat> {
    (name: string) => FindDeclLine(lines, name, kw)
  }

  /** `build_ast_from_analysis`: classes placed by their "class" line,
      functions by the name-only rule, functions tagged "is_class_method" skipped. */
  function BuildAstFromAnalysis(functions: seq<FunctionInfo>, classes: seq<ClassInfo>, content: string): (root: Node)
    ensures root.nodeType == FileRoot && |root.children| == |classes| + |Untagged(functions, "is_class_method")|
    ensures ClassScopesAsPromised(root.children[..|classes|], classes, Finder(Lines(content), "class"))
    ensures FunctionLeavesAsPromised(root.children[|classes|..], Untagged(functions, "is_class_method"), Finder(Lines(content), ""))
  {
    var lines := Lines(content);
    BuildAstShape(classes, functions, Finder(lines, "class"), Finder(lines, ""), "is_class_method");
    BuildAst(classes, functions, Finder(lines, "class"), Finder(lines, ""), "is_class_method")
  }
}
