/** The parser-independent part of the Python analyzer: the complexity scan
    with its indentation-based nesting depth, the line finder, the
    indentation-based block end, the method scan inside a class, the AST
    build and the line statistics. */
module PyAnalyzer {
  import opened Wrappers
  import opened Strs
  import opened Seqs
  import opened CoreTypes
  import opened TextLines
  import opened Ast
  import opened Scanners
  import opened AnalysisAst

  // ---------------------------------------------------------------------------
  // Complexity
  // ---------------------------------------------------------------------------

  const Keywords: seq<string> := [
    "if ", "elif ", "else:", "for ", "while ", "try:", "except",
    "finally:", "with ", "and ", "or ", "lambda", "yield",
    "async def", "await ", "list comprehension", "dict comprehension"]

  lemma KeywordsNonEmpty()
    ensures |Keywords| == 17 && NoEmptyKeyword(Keywords)
  {
  }

  /** A line the indentation scans pass over: blank, or a `#` comment once
      leading whitespace is dropped. */
  predicate Skipped(line: string) {
    IsBlank(line) || StartsWith(TrimStart(line), "#")
  }

  /** The indentation level, counting four whitespace chars per level. */
  function IndentLevel(line: string): nat {
    LeadingWs(line) / 4
  }

  /** No line before index `n` that is not skipped is indented deeper than
      `d` levels. */
  predicate DepthBoundsUpTo(lines: seq<string>, n: nat, d: nat)
    requires n <= |lines|
  {
    forall k :: 0 <= k < n && !Skipped(lines[k]) ==> IndentLevel(lines[k]) <= d
  }

  /** Some line before index `n` that is not skipped sits at exactly `d`
      levels. */
  predicate DepthAttainedUpTo(lines: seq<string>, n: nat, d: nat)
    requires n <= |lines|
  {
    exists k :: 0 <= k < n && !Skipped(lines[k]) && IndentLevel(lines[k]) == d
  }

  predicate DepthBounds(lines: seq<string>, d: nat) {
    DepthBoundsUpTo(lines, |lines|, d)
  }

  predicate DepthAttained(lines: seq<string>, d: nat) {
    DepthAttainedUpTo(lines, |lines|, d)
  }

  /** The nesting-depth loop of `calculate_complexity`: the deepest
      indentation level of a line that is not skipped. */
  method IndentDepth(lines: seq<string>) returns (r: nat)
    ensures DepthBounds(lines, r)
    ensures r == 0 || DepthAttained(lines, r)
  {
    r := 0;
    for i := 0 to |lines|
      invariant DepthBoundsUpTo(lines, i, r)
      invariant r == 0 || DepthAttainedUpTo(lines, i, r)
    {
      var skipped := Skipped(lines[i]);
      var level := IndentLevel(lines[i]);
      if !skipped && level > r {
        r := level;
      }
    }
  }

  /** The bracket term: every four `[` or `{` add one path. */
  function BracketTerm(content: string): nat {
    (Count(content, "[") + Count(content, "{")) / 4
  }

  /** The count stays at one exactly when no keyword occurs and there are
      fewer than four brackets. */
  lemma {:induction false} CyclomaticOneIff(content: string)
    ensures 1 + KeywordTotal(content, Keywords) + BracketTerm(content) == 1 <==>
              (forall k :: 0 <= k < |Keywords| ==> !Contains(content, Keywords[k]))
              && Count(content, "[") + Count(content, "{") < 4
  {
    KeywordsNonEmpty();
    OnePlusTotalIff(content, Keywords, BracketTerm(content));
  }

  /** `calculate_complexity`: one plus every keyword occurrence plus the
      bracket term, and the deepest indentation, rated. */
  method CalculateComplexity(content: string) returns (c: ComplexityInfo)
    ensures c.cyclomatic == 1 + KeywordTotal(content, Keywords) + BracketTerm(content)
    ensures c.cyclomatic == 1 <==>
              (forall k :: 0 <= k < |Keywords| ==> !Contains(content, Keywords[k]))
              && Count(content, "[") + Count(content, "{") < 4
    ensures DepthBounds(Lines(content), c.maxNestingDepth)
    ensures c.maxNestingDepth == 0 || DepthAttained(Lines(content), c.maxNestingDepth)
    ensures c == UpdateRating(c)
  {
    var depth := IndentDepth(Lines(content));
    CyclomaticOneIff(content);
    c := Rated(1 + KeywordTotal(content, Keywords) + BracketTerm(content), depth);
  }

  // ---------------------------------------------------------------------------
  // Line finder and block end
  // ---------------------------------------------------------------------------

  /** The line test of `find_line_number`, on the trimmed line. */
  predicate Declares(line: string, construct: string, name: string) {
    var t := Trim(line);
    Contains(t, construct) && Contains(t, name) && !StartsWith(t, "#")
  }

  function DeclaresTest(construct: string, name: string): string -> bool {
    (line: string) => Declares(line, construct, name)
  }

  /** `find_line_number`: the first line that mentions the construct keyword
      and the name and is not a comment. */
  function FindLineNumber(lines: seq<string>, name: string, construct: string): (r: Option<nat>)
    ensures r.Some? ==> 1 <= r.value <= |lines| && Declares(lines[r.value - 1], construct, name)
    ensures r.Some? ==> forall j :: 0 <= j < r.value - 1 ==> !Declares(lines[j], construct, name)
    ensures r.None? <==> forall j :: 0 <= j < |lines| ==> !Declares(lines[j], construct, name)
  {
    FirstLine(lines, DeclaresTest(construct, name))
  }

  /** A line that ends a block opened at indentation `base`: not skipped and
      indented no deeper than `base`. */
  predicate EndsBlock(line: string, base: nat) {
    !Skipped(line) && LeadingWs(line) <= base
  }

  /** The index of the first line at `i` or later that ends the block. */
  function DedentFrom(lines: seq<string>, base: nat, i: nat): (r: Option<nat>)
    requires i <= |lines|
    ensures r.Some? ==> i <= r.value < |lines| && EndsBlock(lines[r.value], base)
    ensures r.Some? ==> forall j :: i <= j < r.value ==> !EndsBlock(lines[j], base)
    ensures r.None? <==> forall j :: i <= j < |lines| ==> !EndsBlock(lines[j], base)
    decreases |lines| - i
  {
    if i == |lines| then None
    else if EndsBlock(lines[i], base) then Some(i)
    else DedentFrom(lines, base, i + 1)
  }

  /** `find_python_block_end_line`: the line just before the first later
      line that is neither blank nor a comment and is indented no deeper
      than the header; the last line when there is none; the start line
      itself when it lies past the end of the file. */
  function BlockEndLine(lines: seq<string>, startLine: nat): (r: nat)
    ensures LineIndex(startLine) >= |lines| ==> r == startLine
    ensures LineIndex(startLine) < |lines| ==> startLine <= r <= |lines| && LineIndex(startLine) < r
    ensures LineIndex(startLine) < |lines| ==>
              forall j :: LineIndex(startLine) < j < r ==> !EndsBlock(lines[j], LeadingWs(lines[LineIndex(startLine)]))
    ensures LineIndex(startLine) < |lines| && r < |lines| ==>
              EndsBlock(lines[r], LeadingWs(lines[LineIndex(startLine)]))
  {
    var idx := LineIndex(startLine);
    if idx >= |lines| then startLine
    else
      match DedentFrom(lines, LeadingWs(lines[idx]), idx + 1)
      case Some(j) => j
      case None => |lines|
  }

  /** Blank and comment lines after the body belong to the block: with a
      header, a deeper body line, a blank line, a comment and then a line
      back at the header's indentation, the block ends at the comment. */
  lemma {:induction false} TrailingBlankAndCommentIncluded(header: string, body: string, blank: string,
                                                           comment: string, next: string)
    requires LeadingWs(header) == 0
    requires !Skipped(body) && LeadingWs(body) > 0
    requires IsBlank(blank)
    requires StartsWith(TrimStart(comment), "#")
    requires !Skipped(next) && LeadingWs(next) == 0
    ensures BlockEndLine([header, body, blank, comment, next], 1) == 4
  {
    var lines := [header, body, blank, comment, next];
    assert !EndsBlock(lines[1], 0) && !EndsBlock(lines[2], 0) && !EndsBlock(lines[3], 0);
    assert EndsBlock(lines[4], 0);
  }

  // ---------------------------------------------------------------------------
  // Methods of a class
  // ---------------------------------------------------------------------------

  /** `extract_method_name_from_line`: with "async def" read as "def", the
      trimmed text between the first "def " and the next "(", if non-empty. */
  function ExtractMethodName(line: string): (r: Option<string>)
    ensures r.Some? ==> |r.value| > 0
  {
    var l := Replace(line, "async def", "def");
    match Find(l, "def ")
    case None => None
    case Some(p) =>
      var after := l[p + 4..];
      match Find(after, "(")
      case None => None
      case Some(q) =>
        var name := Trim(after[..q]);
        if name != "" then Some(name) else None
  }

  /** A name with no surrounding whitespace and no `(`, written as a plain
      `def`, is read back. */
  lemma {:induction false} ExtractMethodNameOfDef(name: string, rest: string)
    requires |name| > 0 && !IsWhitespace(name[0]) && !IsWhitespace(name[|name| - 1])
    requires '(' !in name
    requires !Contains("def " + name + "(" + rest, "async def")
    ensures ExtractMethodName("def " + name + "(" + rest) == Some(name)
  {
    var line := "def " + name + "(" + rest;
    assert Replace(line, "async def", "def") == line;
    assert Occurs(line, "def ", 0);
    assert Find(line, "def ") == Some(0);
    var after := line[4..];
    assert after == name + "(" + rest;
    assert Occurs(after, "(", |name|);
    forall j | 0 <= j < |name| ensures !Occurs(after, "(", j) {
      assert after[j] == name[j];
    }
    assert Find(after, "(") == Some(|name|);
    assert after[..|name|] == name;
    assert LeadingWs(name) == 0;
    assert TrailingWs(name) == 0;
    assert TrimStart(name) == name;
    assert Trim(name) == name;
    assert Trim(after[..|name|]) == name;
  }

  /** A method header the scan reads from a line: its name and whether it
      is `async`. */
  datatype Def = Def(name: string, isAsync: bool)

  /** The lines the method scan picks: trimmed, they start with "def " or
      contain "async def ", and a name can be read from them. */
  function DefOf(line: string): (r: Option<Def>)
    ensures r.Some? ==> |r.value.name| > 0
  {
    var t := Trim(line);
    if (StartsWith(t, "def ") || Contains(t, "async def ")) && ExtractMethodName(t).Some? then
      Some(Def(ExtractMethodName(t).value, Contains(t, "async def")))
    else None
  }

  function Defs(lines: seq<string>): (r: seq<Option<Def>>)
    ensures |r| == |lines|
    ensures forall k :: 0 <= k < |lines| ==> r[k] == DefOf(lines[k])
  {
    seq(|lines|, k requires 0 <= k < |lines| => DefOf(lines[k]))
  }

  predicate IsDunder(name: string) {
    StartsWith(name, "__") && EndsWith(name, "__")
  }

  /** The tags of a picked method: always a class method, and a dunder
      method when the name starts and ends with two underscores. */
  function MethodTags(name: string): (m: map<string, string>)
    ensures "is_class_method" in m && m["is_class_method"] == "true"
    ensures "is_dunder_method" in m <==> IsDunder(name)
    ensures "is_dunder_method" in m ==> m["is_dunder_method"] == "true"
  {
    var m := map["is_class_method" := "true"];
    if IsDunder(name) then m["is_dunder_method" := "true"] else m
  }

  /** The method record for the header `d` on the line at index `j`: it
      starts there and ends where the indented block does. */
  function MethodAt(lines: seq<string>, j: nat, d: Def): (f: FunctionInfo)
    ensures f.name == d.name && f.isAsync == d.isAsync
    ensures f.startLine == j + 1 && f.endLine == BlockEndLine(lines, j + 1)
    ensures f.metadata == MethodTags(d.name)
  {
    NewFunction(d.name).(startLine := j + 1, endLine := BlockEndLine(lines, j + 1),
                         isAsync := d.isAsync, metadata := MethodTags(d.name))
  }

  /** The method record line `k` gives, if it holds a header. */
  function HeadAt(lines: seq<string>, k: nat): (r: Option<FunctionInfo>)
    requires k < |lines|
    ensures r.Some? <==> DefOf(lines[k]).Some?
    ensures r.Some? ==> r.value == MethodAt(lines, k, DefOf(lines[k]).value)
  {
    var d := DefOf(lines[k]);
    if d.Some? then Some(MethodAt(lines, k, d.value)) else None
  }

  /** The record each line gives, if it holds a header. */
  function Heads(lines: seq<string>): (r: seq<Option<FunctionInfo>>)
    ensures |r| == |lines|
  {
    seq(|lines|, k requires 0 <= k < |lines| => HeadAt(lines, k))
  }

  /** Every line's record sits at its own index of `Heads`. */
  lemma {:induction false} HeadsAt(lines: seq<string>, k: nat)
    requires k < |lines|
    ensures Heads(lines)[k] == HeadAt(lines, k)
  {
  }

  /** Every record in `heads` starts on the line of its own index. */
  predicate Positioned(heads: seq<Option<FunctionInfo>>) {
    forall j :: 0 <= j < |heads| && heads[j].Some? ==> heads[j].value.startLine == j + 1
  }

  lemma {:induction false} HeadsPositioned(lines: seq<string>)
    ensures Positioned(Heads(lines))
  {
    forall j | 0 <= j < |lines| && Heads(lines)[j].Some?
      ensures Heads(lines)[j].value.startLine == j + 1 {
      HeadsAt(lines, j);
    }
  }

  /** `f` is the record at the index of its own start line. */
  predicate HeadAtLine(heads: seq<Option<FunctionInfo>>, f: FunctionInfo) {
    0 < f.startLine <= |heads| && heads[f.startLine - 1] == Some(f)
  }

  /** The records from index `i` up to `end`, in order. */
  function Collect(heads: seq<Option<FunctionInfo>>, i: nat, end: nat): (r: seq<FunctionInfo>)
    requires end <= |heads| && Positioned(heads)
    ensures forall k :: 0 <= k < |r| ==> i < r[k].startLine <= end && HeadAtLine(heads, r[k])
    ensures forall a, b :: 0 <= a < b < |r| ==> r[a].startLine < r[b].startLine
    decreases end - i
  {
    if i >= end then []
    else
      var rest := Collect(heads, i + 1, end);
      if heads[i].Some? then
        assert heads[i].value.startLine == i + 1;
        [heads[i].value] + rest
      else rest
  }

  /** Every record from index `i` up to `end` is collected. */
  lemma {:induction false} CollectComplete(heads: seq<Option<FunctionInfo>>, i: nat, end: nat, j: nat)
    requires end <= |heads| && Positioned(heads)
    requires i <= j < end && heads[j].Some?
    ensures exists k :: 0 <= k < |Collect(heads, i, end)| && Collect(heads, i, end)[k].startLine == j + 1
    decreases end - i
  {
    var r := Collect(heads, i, end);
    if j == i {
      assert r[0].startLine == j + 1;
    } else {
      CollectComplete(heads, i + 1, end, j);
      var rest := Collect(heads, i + 1, end);
      var k :| 0 <= k < |rest| && rest[k].startLine == j + 1;
      if heads[i].Some? {
        assert r[k + 1] == rest[k];
      }
    }
  }

  /** `f` is the record of the header read from line `f.startLine`. */
  predicate IsMethodAt(lines: seq<string>, f: FunctionInfo) {
    HeadAtLine(Heads(lines), f)
  }

  /** Such a record is read from a header line, named and tagged after it,
      and ends where the indented block does. */
  lemma {:induction false} IsMethodAtMeans(lines: seq<string>, f: FunctionInfo)
    requires IsMethodAt(lines, f)
    ensures DefOf(lines[f.startLine - 1]).Some?
    ensures f == MethodAt(lines, f.startLine - 1, DefOf(lines[f.startLine - 1]).value)
  {
    HeadsAt(lines, f.startLine - 1);
  }

  /** `extract_class_methods_python`: every header line from the class start
      line up to the class end, cut at the end of the file, in order. */
  function ExtractClassMethods(lines: seq<string>, className: string, classStart: nat, classEnd: nat): (r: seq<FunctionInfo>)
    ensures forall k :: 0 <= k < |r| ==>
              LineIndex(classStart) < r[k].startLine <= Min(classEnd, |lines|) && IsMethodAt(lines, r[k])
    ensures forall a, b :: 0 <= a < b < |r| ==> r[a].startLine < r[b].startLine
  {
    HeadsPositioned(lines);
    Collect(Heads(lines), LineIndex(classStart), Min(classEnd, |lines|))
  }

  /** Every header line inside the class range gives a method. */
  lemma {:induction false} ExtractFindsEveryHeader(lines: seq<string>, className: string, classStart: nat, classEnd: nat, j: nat)
    requires LineIndex(classStart) <= j < Min(classEnd, |lines|) && DefOf(lines[j]).Some?
    ensures exists k :: 0 <= k < |ExtractClassMethods(lines, className, classStart, classEnd)|
              && ExtractClassMethods(lines, className, classStart, classEnd)[k].startLine == j + 1
  {
    var heads := Heads(lines);
    HeadsAt(lines, j);
    HeadsPositioned(lines);
    var r := Collect(heads, LineIndex(classStart), Min(classEnd, |lines|));
    assert r == ExtractClassMethods(lines, className, classStart, classEnd);
    CollectComplete(heads, LineIndex(classStart), Min(classEnd, |lines|), j);
    var k :| 0 <= k < |r| && r[k].startLine == j + 1;
  }

  /** Every extracted method is tagged as a class method, and as a dunder
      method exactly when its name starts and ends with two underscores. */
  lemma {:induction false} ExtractedMethodTags(lines: seq<string>, className: string, classStart: nat, classEnd: nat, k: nat)
    requires k < |ExtractClassMethods(lines, className, classStart, classEnd)|
    ensures var m := ExtractClassMethods(lines, className, classStart, classEnd)[k];
      && Tagged(m, "is_class_method")
      && ("is_dunder_method" in m.metadata <==> IsDunder(m.name))
  {
    var m := ExtractClassMethods(lines, className, classStart, classEnd)[k];
    IsMethodAtMeans(lines, m);
  }

  // ---------------------------------------------------------------------------
  // AST and line statistics
  // ---------------------------------------------------------------------------

  function Finder(lines: seq<string>, construct: string): string -> Option<nat> {
    (name: string) => FindLineNumber(lines, name, construct)
  }

  /** `build_ast_from_analysis`: classes placed by their `class` line,
      functions by their `def` line, class methods skipped. */
  function BuildAstFromAnalysis(functions: seq<FunctionInfo>, classes: seq<ClassInfo>, content: string): (root: Node)
    ensures root.nodeType == FileRoot && |root.children| == |classes| + |Untagged(functions, "is_class_method")|
    ensures ClassScopesAsPromised(root.children[..|classes|], classes, Finder(Lines(content), "class"))
    ensures FunctionLeavesAsPromised(root.children[|classes|..], Untagged(functions, "is_class_method"), Finder(Lines(content), "def"))
  {
    var lines := Lines(content);
    BuildAstShape(classes, functions, Finder(lines, "class"), Finder(lines, "def"), "is_class_method");
    BuildAst(classes, functions, Finder(lines, "class"), Finder(lines, "def"), "is_class_method")
  }

  /** The comment test of the Python line statistics. */
  predicate IsCommentLine(t: string) {
    StartsWith(t, "#")
  }

  /** The line-statistics loop of `analyze`. */
  method LineStatistics(content: string) returns (s: LineStats)
    ensures s.total == |Lines(content)|
    ensures s.empty == CountWhere(IsKind(LineKind.Empty), Kinds(Lines(content), IsCommentLine))
    ensures s.comment == CountWhere(IsKind(LineKind.Comment), Kinds(Lines(content), IsCommentLine))
    ensures s.code == CountWhere(IsKind(LineKind.Code), Kinds(Lines(content), IsCommentLine))
    ensures s.empty + s.comment + s.code == s.total
  {
    s := CountLines(content, IsCommentLine);
  }
}
