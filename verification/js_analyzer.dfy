/** The parser-independent part of the JavaScript/TypeScript analyzer: the
    merge of the constructs collected by the extraction passes, the
    complexity scan, the line finders that place functions, methods and
    classes, the brace-matched end lines, and the line statistics. */
module JsAnalyzer {
  import opened Wrappers
  import opened Strs
  import opened CoreTypes
  import opened TextLines
  import opened Braces
  import opened Scanners
  import opened Seqs

  // ---------------------------------------------------------------------------
  // Collected constructs
  // ---------------------------------------------------------------------------

  /** `ExtractedConstructs`: what one extraction pass collects. */
  datatype Constructs = Constructs(
    functions: seq<FunctionInfo>,
    classes: seq<ClassInfo>,
    imports: seq<ImportInfo>,
    exports: seq<ExportInfo>,
    calls: seq<FunctionCall>)

  /** `ExtractedConstructs::default`. */
  function NoConstructs(): Constructs {
    Constructs([], [], [], [], [])
  }

  /** `merge`: each list of `other` goes after the same list of `self`. */
  function Merge(a: Constructs, b: Constructs): (r: Constructs)
    ensures |r.functions| == |a.functions| + |b.functions| && |r.classes| == |a.classes| + |b.classes|
    ensures |r.imports| == |a.imports| + |b.imports| && |r.exports| == |a.exports| + |b.exports|
    ensures |r.calls| == |a.calls| + |b.calls|
    ensures r.functions[..|a.functions|] == a.functions && r.functions[|a.functions|..] == b.functions
    ensures r.classes[..|a.classes|] == a.classes && r.classes[|a.classes|..] == b.classes
    ensures r.imports[..|a.imports|] == a.imports && r.imports[|a.imports|..] == b.imports
    ensures r.exports[..|a.exports|] == a.exports && r.exports[|a.exports|..] == b.exports
    ensures r.calls[..|a.calls|] == a.calls && r.calls[|a.calls|..] == b.calls
  {
    Constructs(a.functions + b.functions, a.classes + b.classes, a.imports + b.imports,
               a.exports + b.exports, a.calls + b.calls)
  }

  /** `has_meaningful_content`: some function or class was found. */
  predicate HasMeaningfulContent(c: Constructs) {
    |c.functions| > 0 || |c.classes| > 0
  }

  /** Merging keeps content meaningful exactly when either side was. */
  lemma {:induction false} MergeMeaningful(a: Constructs, b: Constructs)
    ensures HasMeaningfulContent(Merge(a, b)) <==> HasMeaningfulContent(a) || HasMeaningfulContent(b)
  {
    var r := Merge(a, b);
    assert |r.classes| == |a.classes| + |b.classes|;
  }

  /** Merging is associative and the empty collection changes nothing. */
  lemma {:induction false} MergeLaws(a: Constructs, b: Constructs, c: Constructs)
    ensures Merge(Merge(a, b), c) == Merge(a, Merge(b, c))
    ensures Merge(NoConstructs(), a) == a && Merge(a, NoConstructs()) == a
    ensures !HasMeaningfulContent(NoConstructs())
  {
    assert a.functions + b.functions + c.functions == a.functions + (b.functions + c.functions);
    assert a.classes + b.classes + c.classes == a.classes + (b.classes + c.classes);
    assert a.imports + b.imports + c.imports == a.imports + (b.imports + c.imports);
    assert a.exports + b.exports + c.exports == a.exports + (b.exports + c.exports);
    assert a.calls + b.calls + c.calls == a.calls + (b.calls + c.calls);
    assert [] + a.functions == a.functions && a.functions + [] == a.functions;
    assert [] + a.classes == a.classes && a.classes + [] == a.classes;
    assert [] + a.imports == a.imports && a.imports + [] == a.imports;
    assert [] + a.exports == a.exports && a.exports + [] == a.exports;
    assert [] + a.calls == a.calls && a.calls + [] == a.calls;
  }

  // ---------------------------------------------------------------------------
  // Complexity
  // ---------------------------------------------------------------------------

  /** The constructs that each add one path. */
  const Keywords: seq<string> := [
    "if ", "else if", "else ", "for ", "while ", "do ",
    "switch ", "case ", "catch ", "&&", "||", "? ",
    ".then(", ".catch(", "async ", "await "]

  lemma KeywordsNonEmpty()
    ensures |Keywords| == 16 && NoEmptyKeyword(Keywords)
  {
  }

  /** `calculate_complexity`: one plus every keyword occurrence, and the
      deepest `{` nesting, rated. */
  method CalculateComplexity(content: string) returns (c: ComplexityInfo)
    ensures c.cyclomatic == 1 + KeywordTotal(content, Keywords)
    ensures c.cyclomatic == 1 <==> forall k :: 0 <= k < |Keywords| ==> !Contains(content, Keywords[k])
    ensures forall i :: 0 <= i <= |content| ==> DepthAfter(content[..i]) <= c.maxNestingDepth
    ensures exists i :: 0 <= i <= |content| && DepthAfter(content[..i]) == c.maxNestingDepth
    ensures c == UpdateRating(c)
  {
    var depth := NestingDepth(content);
    var i := PeakAttained(content);
    KeywordsNonEmpty();
    KeywordTotalZeroIff(content, Keywords);
    c := Rated(1 + KeywordTotal(content, Keywords), depth);
  }

  // ---------------------------------------------------------------------------
  // Line finders
  // ---------------------------------------------------------------------------

  /** The line test of `find_line_number`: the raw line holds both the
      construct keyword and the name. */
  function MentionsBoth(construct: string, name: string): string -> bool {
    (line: string) => Contains(line, construct) && Contains(line, name)
  }

  /** `find_line_number`: the first line holding both the construct keyword
      and the name. */
  function FindLineNumber(lines: seq<string>, name: string, construct: string): (r: Option<nat>)
    ensures r.Some? ==> 1 <= r.value <= |lines|
    ensures r.Some? ==> Contains(lines[r.value - 1], construct) && Contains(lines[r.value - 1], name)
    ensures r.Some? ==> forall j :: 0 <= j < r.value - 1 ==> !(Contains(lines[j], construct) && Contains(lines[j], name))
    ensures r.None? <==> forall j :: 0 <= j < |lines| ==> !(Contains(lines[j], construct) && Contains(lines[j], name))
  {
    FirstLine(lines, MentionsBoth(construct, name))
  }

  /** The line test of `find_method_line_number`: the name and an opening
      parenthesis on a line that is not a `//` comment. */
  function LooksLikeMethod(name: string): string -> bool {
    (line: string) => Contains(line, name) && Contains(line, "(") && !StartsWith(TrimStart(line), "//")
  }

  /** `find_method_line_number`: the first method-looking line among the
      indices from `class_start - 1` (saturating) up to `class_end`, cut at
      the end of the file. */
  function FindMethodLineNumber(lines: seq<string>, name: string, classStart: nat, classEnd: nat): (r: Option<nat>)
    ensures r.Some? ==> LineIndex(classStart) < r.value <= Min(classEnd, |lines|)
    ensures r.Some? ==> LooksLikeMethod(name)(lines[r.value - 1])
    ensures r.Some? ==> forall j :: LineIndex(classStart) <= j < r.value - 1 ==> !LooksLikeMethod(name)(lines[j])
    ensures r.None? <==> forall j :: LineIndex(classStart) <= j < Min(classEnd, |lines|) ==> !LooksLikeMethod(name)(lines[j])
  {
    FirstLineFrom(lines, LooksLikeMethod(name), LineIndex(classStart), Min(classEnd, |lines|))
  }

  /** A method line always lies inside the class range, so a method is never
      placed on a line before its class. */
  lemma {:induction false} MethodLineInsideClass(lines: seq<string>, name: string, classStart: nat, classEnd: nat)
    requires classStart >= 1
    requires FindMethodLineNumber(lines, name, classStart, classEnd).Some?
    ensures classStart <= FindMethodLineNumber(lines, name, classStart, classEnd).value <= classEnd
  {
  }

  // ---------------------------------------------------------------------------
  // Brace-matched end lines
  // ---------------------------------------------------------------------------

  /** Where the brace scan stands after a line: closed at an offset of that
      line, or still open at some depth. */
  datatype Scan = Closed(offset: nat) | Open(depth: nat, inside: bool)

  predicate ScanOk(d: nat, inside: bool) {
    (inside ==> d >= 1) && (!inside ==> d == 0)
  }

  /** The brace scan of one line from char `j`: the same steps as
      `Braces.CloseFrom`, but answering the state at the end of the line. */
  function ScanLine(s: string, j: nat, d: nat, inside: bool): (r: Scan)
    requires j <= |s| && ScanOk(d, inside)
    ensures r.Open? ==> ScanOk(r.depth, r.inside)
    ensures r.Closed? ==> j < r.offset <= |s|
    decreases |s| - j
  {
    if j == |s| then Open(d, inside)
    else if s[j] == '{' then ScanLine(s, j + 1, d + 1, true)
    else if s[j] == '}' && inside then
      if d == 1 then Closed(j + 1) else ScanLine(s, j + 1, d - 1, true)
    else ScanLine(s, j + 1, d, inside)
  }

  /** The scan over lines from index `i`: the 1-based number of the line in
      which the depth returns to zero. */
  function EndLineFrom(lines: seq<string>, i: nat, d: nat, inside: bool): (r: Option<nat>)
    requires ScanOk(d, inside)
    ensures r.Some? ==> i < r.value <= |lines|
    decreases |lines| - i
  {
    if i >= |lines| then None
    else match ScanLine(lines[i], 0, d, inside)
      case Closed(_) => Some(i + 1)
      case Open(d', inside') => EndLineFrom(lines, i + 1, d', inside')
  }

  /** `find_function_end_line`: the line where the brace count first
      returns to zero after the first `{` at or after the start line, else
      ten lines on, cut at the end of the file. */
  function FunctionEndLine(lines: seq<string>, startLine: nat): (r: nat)
    ensures r <= |lines| || r == startLine + 10
    ensures r <= startLine + 10 || EndLineFrom(lines, LineIndex(startLine), 0, false).Some?
  {
    var found := EndLineFrom(lines, LineIndex(startLine), 0, false);
    if found.Some? then found.value else Min(startLine + 10, |lines|)
  }

  /** The chars the scan reads: the lines glued together. Line breaks hold
      no brace, so leaving them out changes nothing. */
  function Glued(lines: seq<string>): string
    decreases |lines|
  {
    if |lines| == 0 then "" else lines[0] + Glued(lines[1..])
  }

  function ShiftBy(r: Option<nat>, n: nat): Option<nat> {
    if r.Some? then Some(r.value + n) else None
  }

  /** Scanning a line inside longer text gives the same steps. */
  lemma {:induction false} ScanLineInText(s: string, t: string, j: nat, d: nat, inside: bool)
    requires j <= |s| && ScanOk(d, inside)
    ensures ScanLine(s, j, d, inside).Closed? ==>
              CloseFrom(s + t, j, d, inside) == Some(ScanLine(s, j, d, inside).offset)
    ensures ScanLine(s, j, d, inside).Open? ==>
              CloseFrom(s + t, j, d, inside) ==
              CloseFrom(s + t, |s|, ScanLine(s, j, d, inside).depth, ScanLine(s, j, d, inside).inside)
    decreases |s| - j
  {
    if j < |s| {
      assert (s + t)[j] == s[j];
      if s[j] == '{' {
        ScanLineInText(s, t, j + 1, d + 1, true);
      } else if s[j] == '}' && inside {
        if d != 1 {
          ScanLineInText(s, t, j + 1, d - 1, true);
        }
      } else {
        ScanLineInText(s, t, j + 1, d, inside);
      }
    }
  }

  /** The scan of a suffix is the scan of the whole text, shifted. */
  lemma {:induction false} CloseFromShift(a: string, b: string, j: nat, d: nat, inside: bool)
    requires j <= |b| && ScanOk(d, inside)
    ensures CloseFrom(a + b, |a| + j, d, inside) == ShiftBy(CloseFrom(b, j, d, inside), |a|)
    decreases |b| - j
  {
    if j < |b| {
      assert (a + b)[|a| + j] == b[j];
      if b[j] == '{' {
        CloseFromShift(a, b, j + 1, d + 1, true);
      } else if b[j] == '}' && inside {
        if d != 1 {
          CloseFromShift(a, b, j + 1, d - 1, true);
        }
      } else {
        CloseFromShift(a, b, j + 1, d, inside);
      }
    }
  }

  lemma {:induction false} GluedCons(lines: seq<string>, i: nat, m: nat)
    requires i < m <= |lines|
    ensures Glued(lines[i..m]) == lines[i] + Glued(lines[i + 1..m])
  {
    assert lines[i..m][1..] == lines[i + 1..m];
  }

  /** Offset `k` of the text glued from line index `i` on falls in the
      line numbered `l`. */
  predicate InLine(lines: seq<string>, i: nat, l: nat, k: nat)
    requires i < l <= |lines|
  {
    |Glued(lines[i..l - 1])| < k <= |Glued(lines[i..l])|
  }

  /** Gluing one more line in front moves every offset by its length. */
  lemma {:induction false} InLineStep(lines: seq<string>, i: nat, l: nat, k: nat)
    requires i + 1 < l <= |lines| && InLine(lines, i + 1, l, k)
    ensures InLine(lines, i, l, |lines[i]| + k)
  {
    GluedCons(lines, i, l - 1);
    GluedCons(lines, i, l);
  }

  /** The line-by-line scan stops in the line that holds the offset at
      which the scan of the glued text stops. */
  lemma {:induction false} EndLineAgrees(lines: seq<string>, i: nat, d: nat, inside: bool)
    requires i <= |lines| && ScanOk(d, inside)
    ensures EndLineFrom(lines, i, d, inside).Some? <==> CloseFrom(Glued(lines[i..]), 0, d, inside).Some?
    ensures EndLineFrom(lines, i, d, inside).Some? ==>
              InLine(lines, i, EndLineFrom(lines, i, d, inside).value, CloseFrom(Glued(lines[i..]), 0, d, inside).value)
    decreases |lines| - i
  {
    if i == |lines| {
      assert Glued(lines[i..]) == "";
    } else {
      var line := lines[i];
      var rest := Glued(lines[i + 1..]);
      GluedCons(lines, i, |lines|);
      assert lines[i..|lines|] == lines[i..] && lines[i + 1..|lines|] == lines[i + 1..];
      ScanLineInText(line, rest, 0, d, inside);
      match ScanLine(line, 0, d, inside)
      case Closed(off) =>
        assert lines[i..i] == [];
        GluedCons(lines, i, i + 1);
        assert lines[i + 1..i + 1] == [];
      case Open(d', inside') =>
        CloseFromShift(line, rest, 0, d', inside');
        EndLineAgrees(lines, i + 1, d', inside');
        var later := EndLineFrom(lines, i + 1, d', inside');
        assert EndLineFrom(lines, i, d, inside) == later;
        if later.Some? {
          InLineStep(lines, i, later.value, CloseFrom(rest, 0, d', inside').value);
        }
    }
  }

  /** What `find_function_end_line` answers, in terms of the brace scan of
      the text from the start line on: the line holding the `}` that closes
      the first block, or the ten-line fallback when no block closes. */
  lemma {:induction false} FunctionEndLineSpec(lines: seq<string>, startLine: nat)
    requires LineIndex(startLine) <= |lines|
    ensures var text := Glued(lines[LineIndex(startLine)..]);
      && (CloseFrom(text, 0, 0, false).None? ==> FunctionEndLine(lines, startLine) == Min(startLine + 10, |lines|))
      && (CloseFrom(text, 0, 0, false).Some? ==>
            var k := CloseFrom(text, 0, 0, false).value;
            var l := FunctionEndLine(lines, startLine);
            && LineIndex(startLine) < l <= |lines|
            && 0 < k <= |text| && text[k - 1] == '}'
            && FirstOpen(text, 0).Some? && FirstOpen(text, 0).value < k
            && InLine(lines, LineIndex(startLine), l, k)
            && ClosesAt(text, FirstOpen(text, 0).value + 1, 1, k))
  {
    var text := Glued(lines[LineIndex(startLine)..]);
    EndLineAgrees(lines, LineIndex(startLine), 0, false);
    BlockEndSpec(text, 0);
    if CloseFrom(text, 0, 0, false).Some? {
      CloseEndsWithBrace(text, 0, 0, false);
    }
  }

  /** `find_class_end_line` as written: a function end equal to the start
      line plus ten is taken for the fallback and replaced by the larger
      class fallback of fifty lines, cut at the end of the file. */
  function ClassEndLineAsWritten(lines: seq<string>, startLine: nat): (r: nat)
    ensures FunctionEndLine(lines, startLine) != startLine + 10 ==> r == FunctionEndLine(lines, startLine)
    ensures FunctionEndLine(lines, startLine) == startLine + 10 ==> r == Min(startLine + 50, |lines|)
  {
    var endLine := FunctionEndLine(lines, startLine);
    if endLine == startLine + 10 then Min(startLine + 50, |lines|) else endLine
  }

  /** `find_class_end_line` as intended: the brace-matched end when the
      block closes, otherwise the fifty-line class fallback. */
  function ClassEndLine(lines: seq<string>, startLine: nat): (r: nat)
    ensures r <= |lines|
  {
    var found := EndLineFrom(lines, LineIndex(startLine), 0, false);
    if found.Some? then found.value else Min(startLine + 50, |lines|)
  }

  /** The intended class end is the closing line whenever the block closes,
      and the class fallback only when it does not. */
  lemma {:induction false} ClassEndLineFixed(lines: seq<string>, startLine: nat)
    ensures EndLineFrom(lines, LineIndex(startLine), 0, false).Some? ==>
              ClassEndLine(lines, startLine) == FunctionEndLine(lines, startLine)
    ensures EndLineFrom(lines, LineIndex(startLine), 0, false).None? ==>
              ClassEndLine(lines, startLine) == Min(startLine + 50, |lines|)
    ensures ClassEndLine(lines, startLine) == ClassEndLineAsWritten(lines, startLine) ||
              FunctionEndLine(lines, startLine) == startLine + 10
  {
  }

  predicate BraceFree(s: string) {
    forall j :: 0 <= j < |s| ==> s[j] != '{' && s[j] != '}'
  }

  /** A line without braces leaves the scan where it was. */
  lemma {:induction false} BraceFreeLine(s: string, j: nat, d: nat, inside: bool)
    requires j <= |s| && ScanOk(d, inside) && BraceFree(s)
    ensures ScanLine(s, j, d, inside) == Open(d, inside)
    decreases |s| - j
  {
    if j < |s| {
      BraceFreeLine(s, j + 1, d, inside);
    }
  }

  /** Brace-free lines are skipped. */
  lemma {:induction false} SkipBraceFree(lines: seq<string>, i: nat, m: nat, d: nat, inside: bool)
    requires i <= m <= |lines| && ScanOk(d, inside)
    requires forall j :: i <= j < m ==> BraceFree(lines[j])
    ensures EndLineFrom(lines, i, d, inside) == EndLineFrom(lines, m, d, inside)
    decreases m - i
  {
    if i < m {
      BraceFreeLine(lines[i], 0, d, inside);
      SkipBraceFree(lines, i + 1, m, d, inside);
    }
  }

  /** The input that shows the mix-up: a class opening `{` on line 1 and
      closing `}` on line 11, with nine brace-free lines between, in a file
      of at least 51 lines. The block closes on line 11, which is the start
      line plus ten, so the class is reported to end on line 51. */
  lemma {:induction false} ClassEndMistakenForFallback(pad: seq<string>, rest: seq<string>)
    requires |pad| == 9 && forall j :: 0 <= j < 9 ==> BraceFree(pad[j])
    requires |rest| >= 40
    ensures var lines := ["{"] + pad + ["}"] + rest;
      && FunctionEndLine(lines, 1) == 11
      && ClassEndLine(lines, 1) == 11
      && ClassEndLineAsWritten(lines, 1) == 51
  {
    var lines := ["{"] + pad + ["}"] + rest;
    assert lines[0] == "{" && lines[10] == "}";
    assert ScanLine("{", 0, 0, false) == Open(1, true);
    assert ScanLine("}", 0, 1, true) == Closed(1);
    assert EndLineFrom(lines, 0, 0, false) == EndLineFrom(lines, 1, 1, true);
    forall j | 1 <= j < 10 ensures BraceFree(lines[j]) {
      assert lines[j] == pad[j - 1];
    }
    SkipBraceFree(lines, 1, 10, 1, true);
    assert EndLineFrom(lines, 10, 1, true) == Some(11);
  }

  // ---------------------------------------------------------------------------
  // Line statistics
  // ---------------------------------------------------------------------------

  /** The comment test of the JavaScript line statistics. */
  predicate IsCommentLine(t: string) {
    StartsWith(t, "//") || StartsWith(t, "/*") || StartsWith(t, "*")
  }

  /** The line-statistics loop of `analyze`. */
  method LineStatistics(content: string) returns (s: LineStats)
    ensures s.total == |Lines(content)|
    ensures s.empty == CountWhere(IsKind(Empty), Kinds(Lines(content), IsCommentLine))
    ensures s.comment == CountWhere(IsKind(Comment), Kinds(Lines(content), IsCommentLine))
    ensures s.code == CountWhere(IsKind(Code), Kinds(Lines(content), IsCommentLine))
    ensures s.empty + s.comment + s.code == s.total
  {
    s := CountLines(content, IsCommentLine);
  }
}
