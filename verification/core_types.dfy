/** The analysis data model of the single-crate tool (`src/core/types.rs`):
    languages, complexity ratings, per-file results and the directory
    summary. Counters the source keeps as `u32`/`u64` are naturals here. */
module CoreTypes {
  import opened Wrappers
  import opened Strs
  import opened Seqs
  import opened Paths
  import opened Langs
  import Ast

  // ---------------------------------------------------------------------------
  // Languages
  // ---------------------------------------------------------------------------

  /** `Language::from_extension`: the extension with its leading dot, compared
      after lowercasing. */
  function FromExtension(ext: string): Language {
    var e := Lower(ext);
    if e in {".js", ".mjs", ".jsx", ".cjs"} then JavaScript
    else if e in {".ts", ".tsx"} then TypeScript
    else if e in {".cpp", ".cxx", ".cc", ".hpp", ".hxx", ".hh"} then Cpp
    else if e in {".c", ".h"} then C
    else if e in {".py", ".pyw", ".pyi"} then Python
    else if e == ".cs" then CSharp
    else if e == ".go" then Go
    else if e == ".rs" then Rust
    else Unknown
  }

  /** The extension is matched without regard to ASCII case. */
  lemma {:induction false} FromExtensionIgnoresCase(ext: string)
    ensures FromExtension(ext) == FromExtension(Lower(ext))
  {
    LowerIdempotent(ext);
  }

  /** Only an extension written with its leading dot is recognised. */
  lemma {:induction false} FromExtensionNeedsDot(ext: string)
    requires !StartsWith(ext, ".")
    ensures FromExtension(ext) == Unknown
  {
    var e := Lower(ext);
    if |ext| > 0 {
      assert e[0] == LowerChar(ext[0]) != '.';
    }
    assert e !in {".js", ".mjs", ".jsx", ".cjs", ".ts", ".tsx", ".cpp", ".cxx", ".cc", ".hpp",
                  ".hxx", ".hh", ".c", ".h", ".py", ".pyw", ".pyi", ".cs", ".go", ".rs"};
  }

  // ---------------------------------------------------------------------------
  // Complexity
  // ---------------------------------------------------------------------------

  /** The emoji the tool shows next to each rating. */
  function Emoji(r: Rating): string {
    match r
    case Simple => "\U{1F7E2}"
    case Moderate => "\U{1F7E1}"
    case Complex => "\U{1F7E0}"
    case VeryComplex => "\U{1F534}"
  }

  /** Position of a rating in the order Simple < Moderate < Complex < VeryComplex. */
  function Rank(r: Rating): nat {
    match r
    case Simple => 0
    case Moderate => 1
    case Complex => 2
    case VeryComplex => 3
  }

  datatype ComplexityInfo = ComplexityInfo(
    cyclomatic: nat,
    maxNestingDepth: nat,
    cognitive: nat,
    rating: Rating,
    ratingEmoji: string)

  /** `ComplexityInfo::update_rating`: the rating band of the cyclomatic
      complexity, with its emoji; nothing else changes. */
  function UpdateRating(info: ComplexityInfo): (r: ComplexityInfo)
    ensures r.rating == Simple <==> info.cyclomatic <= 10
    ensures r.rating == Moderate <==> 10 < info.cyclomatic <= 20
    ensures r.rating == Complex <==> 20 < info.cyclomatic <= 50
    ensures r.rating == VeryComplex <==> 50 < info.cyclomatic
    ensures r.ratingEmoji == Emoji(r.rating)
    ensures r.cyclomatic == info.cyclomatic && r.maxNestingDepth == info.maxNestingDepth
    ensures r.cognitive == info.cognitive
  {
    var c := info.cyclomatic;
    if c <= 10 then info.(rating := Simple, ratingEmoji := Emoji(Simple))
    else if c <= 20 then info.(rating := Moderate, ratingEmoji := Emoji(Moderate))
    else if c <= 50 then info.(rating := Complex, ratingEmoji := Emoji(Complex))
    else info.(rating := VeryComplex, ratingEmoji := Emoji(VeryComplex))
  }

  /** More complexity never gives a milder rating. */
  lemma {:induction false} RatingMonotone(a: ComplexityInfo, b: ComplexityInfo)
    requires a.cyclomatic <= b.cyclomatic
    ensures Rank(UpdateRating(a).rating) <= Rank(UpdateRating(b).rating)
  {
  }

  /** Rating twice is rating once. */
  lemma {:induction false} UpdateRatingIdempotent(info: ComplexityInfo)
    ensures UpdateRating(UpdateRating(info)) == UpdateRating(info)
  {
  }

  /** `ComplexityInfo::new`. */
  function NewComplexity(): (r: ComplexityInfo)
    ensures r.cyclomatic == 1 && r.maxNestingDepth == 0 && r.cognitive == 0
    ensures r.rating == Simple && r.ratingEmoji == Emoji(Simple)
  {
    UpdateRating(ComplexityInfo(1, 0, 0, Simple, Emoji(Simple)))
  }

  /** A fresh complexity record is already rated consistently. */
  lemma {:induction false} NewComplexityRated()
    ensures UpdateRating(NewComplexity()) == NewComplexity()
  {
  }

  // ---------------------------------------------------------------------------
  // Extracted constructs
  // ---------------------------------------------------------------------------

  datatype FunctionInfo = FunctionInfo(
    name: string,
    startLine: nat,
    endLine: nat,
    parameters: seq<string>,
    isAsync: bool,
    isArrowFunction: bool,
    complexity: ComplexityInfo,
    metadata: map<string, string>)

  /** `FunctionInfo::new`: a named function with no position, parameters,
      flags or metadata, and a fresh complexity record. */
  function NewFunction(name: string): (f: FunctionInfo)
    ensures f.name == name && f.startLine == 0 && f.endLine == 0 && f.parameters == []
    ensures !f.isAsync && !f.isArrowFunction && f.complexity == NewComplexity() && f.metadata == map[]
  {
    FunctionInfo(name, 0, 0, [], false, false, NewComplexity(), map[])
  }

  datatype MemberVariable = MemberVariable(
    name: string,
    varType: string,
    declarationLine: nat,
    isStatic: bool,
    isConst: bool,
    accessModifier: string,
    usedByMethods: seq<string>,
    modifiedByMethods: seq<string>)

  datatype ClassInfo = ClassInfo(
    name: string,
    parentClass: Option<string>,
    startLine: nat,
    endLine: nat,
    methods: seq<FunctionInfo>,
    properties: seq<string>,
    memberVariables: seq<MemberVariable>)

  datatype ImportType =
    ES6Import | CommonJSRequire | DynamicImport | PythonImport | PythonFromImport
    | CppInclude | CSharpUsing | GoImport | RustUse

  datatype ExportType =
    ES6Export | ES6Default | CommonJSExports | PythonGlobal | CppExtern
    | CSharpPublic | GoExported | RustPub

  datatype ImportInfo = ImportInfo(
    importType: ImportType,
    modulePath: string,
    importedNames: seq<string>,
    alias: Option<string>,
    lineNumber: nat)

  datatype ExportInfo = ExportInfo(
    exportType: ExportType,
    exportedNames: seq<string>,
    isDefault: bool,
    lineNumber: nat)

  datatype FunctionCall = FunctionCall(
    functionName: string,
    objectName: Option<string>,
    lineNumber: nat,
    isMethodCall: bool)

  /** `FunctionCall::full_name`: `object.function` for a method call with a
      known receiver, the bare function name otherwise. */
  function FullName(call: FunctionCall): (r: string)
    ensures EndsWith(r, call.functionName)
    ensures r == call.functionName <==> !(call.isMethodCall && call.objectName.Some?)
    ensures call.isMethodCall && call.objectName.Some? ==> StartsWith(r, call.objectName.value + ".")
  {
    if call.isMethodCall && call.objectName.Some? then
      var r := call.objectName.value + "." + call.functionName;
      assert r[|r| - |call.functionName|..] == call.functionName;
      assert r[..|call.objectName.value + "."|] == call.objectName.value + ".";
      r
    else call.functionName
  }

  datatype CommentInfo = CommentInfo(
    lineStart: nat,
    lineEnd: nat,
    commentType: string,
    content: string,
    looksLikeCode: bool)

  // ---------------------------------------------------------------------------
  // Per-file results
  // ---------------------------------------------------------------------------

  datatype FileInfo = FileInfo(
    name: string,
    path: string,
    sizeBytes: nat,
    totalLines: nat,
    codeLines: nat,
    commentLines: nat,
    emptyLines: nat)

  /** `FileInfo::new`: named after the path's file name, or "unknown" when the
      path has none; every count starts at zero. */
  function NewFileInfo(path: string): (r: FileInfo)
    ensures r.path == path
    ensures r.sizeBytes == 0 && r.totalLines == 0 && r.codeLines == 0
    ensures r.commentLines == 0 && r.emptyLines == 0
    ensures FileName(path).Some? ==> r.name == FileName(path).value
    ensures FileName(path).None? ==> r.name == "unknown"
  {
    FileInfo(
      match FileName(path) case Some(n) => n case None => "unknown",
      path, 0, 0, 0, 0, 0)
  }

  /** A file created for a path that ends in a proper name is named by it. */
  lemma {:induction false} NewFileInfoName(dir: seq<Component>, n: string)
    requires ValidName(n) && Clean(dir + [Normal(n)])
    ensures NewFileInfo(Render(dir + [Normal(n)])).name == n
  {
    RenderComponents(dir + [Normal(n)]);
  }

  datatype Statistics = Statistics(
    classCount: nat,
    functionCount: nat,
    importCount: nat,
    exportCount: nat,
    uniqueCalls: nat,
    totalCalls: nat,
    commentedLinesCount: nat)

  const EmptyStatistics: Statistics := Statistics(0, 0, 0, 0, 0, 0, 0)

  datatype AnalysisResult = AnalysisResult(
    fileInfo: FileInfo,
    language: Language,
    classes: seq<ClassInfo>,
    functions: seq<FunctionInfo>,
    imports: seq<ImportInfo>,
    exports: seq<ExportInfo>,
    functionCalls: seq<FunctionCall>,
    callFrequency: map<string, nat>,
    complexity: ComplexityInfo,
    commentedLines: seq<CommentInfo>,
    stats: Statistics,
    astRoot: Option<Ast.Node>,
    astStatistics: Option<Ast.Stats>)

  /** `AnalysisResult::new`. */
  function NewAnalysisResult(fileInfo: FileInfo, language: Language): (r: AnalysisResult)
    ensures r.fileInfo == fileInfo && r.language == language
    ensures r.classes == [] && r.functions == [] && r.imports == [] && r.exports == []
    ensures r.functionCalls == [] && r.callFrequency == map[] && r.commentedLines == []
    ensures r.complexity == NewComplexity() && r.stats == EmptyStatistics
    ensures r.astRoot.None? && r.astStatistics.None?
  {
    AnalysisResult(fileInfo, language, [], [], [], [], [], map[], NewComplexity(), [],
                   EmptyStatistics, None, None)
  }

  /** `AnalysisResult::update_statistics`: every count is the length of its
      list, unique calls the number of distinct called names; only the
      statistics change. */
  function UpdateStatistics(a: AnalysisResult): (r: AnalysisResult)
    ensures r.stats.classCount == |a.classes| && r.stats.functionCount == |a.functions|
    ensures r.stats.importCount == |a.imports| && r.stats.exportCount == |a.exports|
    ensures r.stats.uniqueCalls == |a.callFrequency.Keys|
    ensures r.stats.totalCalls == |a.functionCalls|
    ensures r.stats.commentedLinesCount == |a.commentedLines|
    ensures r.(stats := a.stats) == a
  {
    a.(stats := Statistics(|a.classes|, |a.functions|, |a.imports|, |a.exports|,
                           |a.callFrequency.Keys|, |a.functionCalls|, |a.commentedLines|))
  }

  /** Recomputing statistics a second time changes nothing. */
  lemma {:induction false} UpdateStatisticsIdempotent(a: AnalysisResult)
    ensures UpdateStatistics(UpdateStatistics(a)) == UpdateStatistics(a)
  {
  }

  /** A result with no constructs has all-zero statistics. */
  lemma {:induction false} NewResultStatistics(fileInfo: FileInfo, language: Language)
    ensures UpdateStatistics(NewAnalysisResult(fileInfo, language)).stats == EmptyStatistics
  {
  }

  // ---------------------------------------------------------------------------
  // Directory summary
  // ---------------------------------------------------------------------------

  datatype DirectorySummary = DirectorySummary(
    totalFiles: nat,
    totalLines: nat,
    totalSize: nat,
    largeFiles: nat,
    complexFiles: nat,
    totalClasses: nat,
    totalFunctions: nat,
    totalComplexity: nat,
    maxComplexity: nat,
    mostComplexFile: string)

  const EmptySummary: DirectorySummary := DirectorySummary(0, 0, 0, 0, 0, 0, 0, 0, 0, "")

  datatype DirectoryAnalysis = DirectoryAnalysis(
    directoryPath: string,
    files: seq<AnalysisResult>,
    summary: DirectorySummary)

  /** A file of more than 500 lines. */
  predicate IsLarge(f: AnalysisResult) { f.fileInfo.totalLines > 500 }

  /** A file rated Complex or worse. */
  predicate IsComplexFile(f: AnalysisResult) { f.complexity.rating in {Complex, VeryComplex} }

  function LineCounts(fs: seq<AnalysisResult>): (r: seq<nat>)
    ensures |r| == |fs| && forall k :: 0 <= k < |fs| ==> r[k] == fs[k].fileInfo.totalLines
  {
    seq(|fs|, k requires 0 <= k < |fs| => fs[k].fileInfo.totalLines)
  }

  function Sizes(fs: seq<AnalysisResult>): (r: seq<nat>)
    ensures |r| == |fs| && forall k :: 0 <= k < |fs| ==> r[k] == fs[k].fileInfo.sizeBytes
  {
    seq(|fs|, k requires 0 <= k < |fs| => fs[k].fileInfo.sizeBytes)
  }

  function ClassCounts(fs: seq<AnalysisResult>): (r: seq<nat>)
    ensures |r| == |fs| && forall k :: 0 <= k < |fs| ==> r[k] == fs[k].stats.classCount
  {
    seq(|fs|, k requires 0 <= k < |fs| => fs[k].stats.classCount)
  }

  function FunctionCounts(fs: seq<AnalysisResult>): (r: seq<nat>)
    ensures |r| == |fs| && forall k :: 0 <= k < |fs| ==> r[k] == fs[k].stats.functionCount
  {
    seq(|fs|, k requires 0 <= k < |fs| => fs[k].stats.functionCount)
  }

  function Cyclomatics(fs: seq<AnalysisResult>): (r: seq<nat>)
    ensures |r| == |fs| && forall k :: 0 <= k < |fs| ==> r[k] == fs[k].complexity.cyclomatic
  {
    seq(|fs|, k requires 0 <= k < |fs| => fs[k].complexity.cyclomatic)
  }

  /** Index of the first occurrence of `v` in `s`. */
  function FirstIndexOf(s: seq<nat>, v: nat): (k: nat)
    requires v in s
    ensures k < |s| && s[k] == v
    ensures forall j :: 0 <= j < k ==> s[j] != v
    decreases |s|
  {
    if s[0] == v then 0 else 1 + FirstIndexOf(s[1..], v)
  }

  /** One iteration of the summary loop (everything but `total_files`). */
  function SummaryStep(acc: DirectorySummary, f: AnalysisResult): DirectorySummary {
    var cc := f.complexity.cyclomatic;
    acc.(
      totalLines := acc.totalLines + f.fileInfo.totalLines,
      totalSize := acc.totalSize + f.fileInfo.sizeBytes,
      totalClasses := acc.totalClasses + f.stats.classCount,
      totalFunctions := acc.totalFunctions + f.stats.functionCount,
      largeFiles := acc.largeFiles + (if IsLarge(f) then 1 else 0),
      complexFiles := acc.complexFiles + (if IsComplexFile(f) then 1 else 0),
      totalComplexity := acc.totalComplexity + cc,
      maxComplexity := if cc > acc.maxComplexity then cc else acc.maxComplexity,
      mostComplexFile := if cc > acc.maxComplexity then f.fileInfo.name else acc.mostComplexFile)
  }

  /** The summary loop run over `fs`, in order, from the default summary. */
  function Accumulate(fs: seq<AnalysisResult>): DirectorySummary
    decreases |fs|
  {
    if |fs| == 0 then EmptySummary
    else SummaryStep(Accumulate(fs[..|fs| - 1]), fs[|fs| - 1])
  }

  /** `DirectoryAnalysis::update_summary`: a fresh summary over the files
      (the previous summary plays no part); the average is not modelled. */
  function UpdateSummary(d: DirectoryAnalysis): (r: DirectoryAnalysis)
    ensures r.files == d.files && r.directoryPath == d.directoryPath
    ensures r.summary.totalFiles == |d.files|
  {
    d.(summary := Accumulate(d.files).(totalFiles := |d.files|))
  }

  /** What the summary loop computes, stated over the whole file list. */
  predicate SummaryOf(s: DirectorySummary, fs: seq<AnalysisResult>) {
    && s.totalLines == Sum(LineCounts(fs))
    && s.totalSize == Sum(Sizes(fs))
    && s.totalClasses == Sum(ClassCounts(fs))
    && s.totalFunctions == Sum(FunctionCounts(fs))
    && s.largeFiles == CountWhere(IsLarge, fs)
    && s.complexFiles == CountWhere(IsComplexFile, fs)
    && s.totalComplexity == Sum(Cyclomatics(fs))
    && s.maxComplexity == Max(Cyclomatics(fs))
    && (s.maxComplexity == 0 ==> s.mostComplexFile == "")
    && (s.maxComplexity > 0 ==>
          s.mostComplexFile == fs[FirstIndexOf(Cyclomatics(fs), s.maxComplexity)].fileInfo.name)
  }

  lemma {:induction false} AccumulateSums(fs: seq<AnalysisResult>)
    ensures Accumulate(fs).totalLines == Sum(LineCounts(fs))
    ensures Accumulate(fs).totalSize == Sum(Sizes(fs))
    ensures Accumulate(fs).totalClasses == Sum(ClassCounts(fs))
    ensures Accumulate(fs).totalFunctions == Sum(FunctionCounts(fs))
    ensures Accumulate(fs).totalComplexity == Sum(Cyclomatics(fs))
  {
    AccumulateFileSums(fs);
    AccumulateStatSums(fs);
  }

  lemma {:induction false} AccumulateFileSums(fs: seq<AnalysisResult>)
    ensures Accumulate(fs).totalLines == Sum(LineCounts(fs))
    ensures Accumulate(fs).totalSize == Sum(Sizes(fs))
    decreases |fs|
  {
    if |fs| > 0 {
      var front := fs[..|fs| - 1];
      var f := fs[|fs| - 1];
      AccumulateFileSums(front);
      assert LineCounts(fs) == LineCounts(front) + [f.fileInfo.totalLines];
      assert Sizes(fs) == Sizes(front) + [f.fileInfo.sizeBytes];
      SumAppend(LineCounts(front), [f.fileInfo.totalLines]);
      SumAppend(Sizes(front), [f.fileInfo.sizeBytes]);
    }
  }

  lemma {:induction false} AccumulateStatSums(fs: seq<AnalysisResult>)
    ensures Accumulate(fs).totalClasses == Sum(ClassCounts(fs))
    ensures Accumulate(fs).totalFunctions == Sum(FunctionCounts(fs))
    ensures Accumulate(fs).totalComplexity == Sum(Cyclomatics(fs))
    decreases |fs|
  {
    if |fs| > 0 {
      var front := fs[..|fs| - 1];
      var f := fs[|fs| - 1];
      AccumulateStatSums(front);
      assert ClassCounts(fs) == ClassCounts(front) + [f.stats.classCount];
      assert FunctionCounts(fs) == FunctionCounts(front) + [f.stats.functionCount];
      assert Cyclomatics(fs) == Cyclomatics(front) + [f.complexity.cyclomatic];
      SumAppend(ClassCounts(front), [f.stats.classCount]);
      SumAppend(FunctionCounts(front), [f.stats.functionCount]);
      SumAppend(Cyclomatics(front), [f.complexity.cyclomatic]);
    }
  }

  lemma {:induction false} AccumulateCounts(fs: seq<AnalysisResult>)
    ensures Accumulate(fs).largeFiles == CountWhere(IsLarge, fs)
    ensures Accumulate(fs).complexFiles == CountWhere(IsComplexFile, fs)
    decreases |fs|
  {
    if |fs| > 0 {
      var front := fs[..|fs| - 1];
      var f := fs[|fs| - 1];
      AccumulateCounts(front);
      assert fs == front + [f];
      CountWhereAppend(IsLarge, front, [f]);
      CountWhereAppend(IsComplexFile, front, [f]);
    }
  }

  lemma {:induction false} AccumulateMax(fs: seq<AnalysisResult>)
    ensures Accumulate(fs).maxComplexity == Max(Cyclomatics(fs))
    ensures Accumulate(fs).maxComplexity == 0 ==> Accumulate(fs).mostComplexFile == ""
    ensures Accumulate(fs).maxComplexity > 0 ==>
      Accumulate(fs).mostComplexFile
        == fs[FirstIndexOf(Cyclomatics(fs), Accumulate(fs).maxComplexity)].fileInfo.name
    decreases |fs|, 1
  {
    if |fs| > 0 {
      var front, f := fs[..|fs| - 1], fs[|fs| - 1];
      if f.complexity.cyclomatic > Accumulate(front).maxComplexity {
        AccumulateMaxRaise(fs);
      } else {
        AccumulateMaxKeep(fs);
      }
    }
  }

  lemma {:induction false} CyclomaticsSnoc(fs: seq<AnalysisResult>)
    requires |fs| > 0
    ensures Cyclomatics(fs) == Cyclomatics(fs[..|fs| - 1]) + [fs[|fs| - 1].complexity.cyclomatic]
  {
    assert Cyclomatics(fs) == Cyclomatics(fs[..|fs| - 1]) + [fs[|fs| - 1].complexity.cyclomatic];
  }

  /** The last file is strictly more complex than all before it: it becomes
      the most complex file. */
  lemma {:induction false} AccumulateMaxRaise(fs: seq<AnalysisResult>)
    requires |fs| > 0 && fs[|fs| - 1].complexity.cyclomatic > Accumulate(fs[..|fs| - 1]).maxComplexity
    ensures Accumulate(fs).maxComplexity == fs[|fs| - 1].complexity.cyclomatic
    ensures Accumulate(fs).maxComplexity == Max(Cyclomatics(fs))
    ensures Accumulate(fs).maxComplexity > 0
    ensures Accumulate(fs).mostComplexFile
        == fs[FirstIndexOf(Cyclomatics(fs), Accumulate(fs).maxComplexity)].fileInfo.name
    decreases |fs|, 0
  {
    var front, f := fs[..|fs| - 1], fs[|fs| - 1];
    AccumulateMax(front);
    var cs, cc := Cyclomatics(front), f.complexity.cyclomatic;
    assert Accumulate(fs) == SummaryStep(Accumulate(front), f);
    CyclomaticsSnoc(fs);
    MaxAppend(cs, [cc]);
    assert cc !in cs;
    FirstIndexAfter(cs, cc);
  }

  /** The last file is no more complex than the most complex before it:
      nothing changes. */
  lemma {:induction false} AccumulateMaxKeep(fs: seq<AnalysisResult>)
    requires |fs| > 0 && fs[|fs| - 1].complexity.cyclomatic <= Accumulate(fs[..|fs| - 1]).maxComplexity
    ensures Accumulate(fs).maxComplexity == Accumulate(fs[..|fs| - 1]).maxComplexity
    ensures Accumulate(fs).maxComplexity == Max(Cyclomatics(fs))
    ensures Accumulate(fs).maxComplexity == 0 ==> Accumulate(fs).mostComplexFile == ""
    ensures Accumulate(fs).maxComplexity > 0 ==>
      Accumulate(fs).mostComplexFile
        == fs[FirstIndexOf(Cyclomatics(fs), Accumulate(fs).maxComplexity)].fileInfo.name
    decreases |fs|, 0
  {
    var front, f := fs[..|fs| - 1], fs[|fs| - 1];
    AccumulateMax(front);
    var acc := Accumulate(front);
    var cs, cc := Cyclomatics(front), f.complexity.cyclomatic;
    assert Accumulate(fs) == SummaryStep(acc, f);
    CyclomaticsSnoc(fs);
    MaxAppend(cs, [cc]);
    if acc.maxComplexity > 0 {
      assert acc.maxComplexity in cs;
      FirstIndexPrefix(cs, [cc], acc.maxComplexity);
      assert fs[FirstIndexOf(cs, acc.maxComplexity)] == front[FirstIndexOf(cs, acc.maxComplexity)];
    }
  }

  lemma {:induction false} FirstIndexPrefix(a: seq<nat>, b: seq<nat>, v: nat)
    requires v in a
    ensures FirstIndexOf(a + b, v) == FirstIndexOf(a, v)
    decreases |a|
  {
    if a[0] != v {
      assert (a + b)[1..] == a[1..] + b;
      FirstIndexPrefix(a[1..], b, v);
    }
  }

  lemma {:induction false} FirstIndexAfter(a: seq<nat>, v: nat)
    requires v !in a
    ensures FirstIndexOf(a + [v], v) == |a|
    decreases |a|
  {
    if |a| > 0 {
      assert (a + [v])[1..] == a[1..] + [v];
      FirstIndexAfter(a[1..], v);
    }
  }

  /** The summary `update_summary` leaves behind. */
  lemma {:induction false} UpdateSummarySpec(d: DirectoryAnalysis)
    ensures SummaryOf(UpdateSummary(d).summary, d.files)
    ensures UpdateSummary(d).summary.totalFiles == |d.files|
  {
    AccumulateSums(d.files);
    AccumulateCounts(d.files);
    AccumulateMax(d.files);
  }

  /** `update_summary` is idempotent, and the summary it writes does not
      depend on the one it replaces. */
  lemma {:induction false} UpdateSummaryIdempotent(d: DirectoryAnalysis, previous: DirectorySummary)
    ensures UpdateSummary(UpdateSummary(d)) == UpdateSummary(d)
    ensures UpdateSummary(d.(summary := previous)) == UpdateSummary(d)
  {
  }

  // ---------------------------------------------------------------------------
  // Configuration
  // ---------------------------------------------------------------------------

  datatype AnalysisConfig = AnalysisConfig(
    includedExtensions: seq<string>,
    excludedPatterns: seq<string>,
    analyzeComplexity: bool,
    analyzeDependencies: bool,
    analyzeFunctionCalls: bool,
    includeTestFiles: bool,
    completeAnalysis: bool,
    enableParallelProcessing: bool,
    maxThreads: nat,
    verboseOutput: bool,
    includeLineNumbers: bool,
    parserType: string)

  /** The extensions `AnalysisConfig::default` includes, in its order, in
      four groups. */
  const ScriptExtensions: seq<string> := [".js", ".mjs", ".jsx", ".ts", ".tsx"]
  const CppExtensions: seq<string> := [".cpp", ".cxx", ".cc", ".C", ".hpp", ".hxx", ".hh", ".H"]
  const CPythonExtensions: seq<string> := [".c", ".h", ".py", ".pyw", ".pyi"]
  const OtherExtensions: seq<string> := [".cs", ".go", ".rs"]

  /** `AnalysisConfig::default`. */
  const DefaultConfig: AnalysisConfig := AnalysisConfig(
    ScriptExtensions + CppExtensions + CPythonExtensions + OtherExtensions,
    ["node_modules", ".git", "dist", "build", "__pycache__", "target"],
    true, true, true, false, false, true, 0, false, true, "pest")

  lemma {:induction false} DefaultKnownScript()
    ensures forall e :: e in ScriptExtensions ==> FromExtension(e) in {JavaScript, TypeScript}
  {
    LowerUnchanged(".js");
    LowerUnchanged(".mjs");
    LowerUnchanged(".jsx");
    LowerUnchanged(".ts");
    LowerUnchanged(".tsx");
  }

  /** ".C" and ".H" are lowercased first and so read as C. */
  lemma {:induction false} DefaultKnownCpp()
    ensures forall e :: e in CppExtensions ==> FromExtension(e) in {Cpp, C}
    ensures FromExtension(".C") == C && FromExtension(".H") == C
  {
    LowerUnchanged(".cpp");
    LowerUnchanged(".cxx");
    LowerUnchanged(".cc");
    LowerUnchanged(".hpp");
    LowerUnchanged(".hxx");
    LowerUnchanged(".hh");
    assert Lower(".C") == ".c" by {
      assert Lower(".C")[0] == '.' && Lower(".C")[1] == 'c';
    }
    assert Lower(".H") == ".h" by {
      assert Lower(".H")[0] == '.' && Lower(".H")[1] == 'h';
    }
  }

  lemma {:induction false} DefaultKnownCPython()
    ensures forall e :: e in CPythonExtensions ==> FromExtension(e) in {C, Python}
  {
    LowerUnchanged(".c");
    LowerUnchanged(".h");
    LowerUnchanged(".py");
    LowerUnchanged(".pyw");
    LowerUnchanged(".pyi");
  }

  lemma {:induction false} DefaultKnownOthers()
    ensures forall e :: e in OtherExtensions ==> FromExtension(e) in {CSharp, Go, Rust}
  {
    LowerUnchanged(".cs");
    LowerUnchanged(".go");
    LowerUnchanged(".rs");
  }

  /** Every extension the default configuration includes names a language;
      ".C" and ".H" are lowercased and so read as C, not C++. */
  lemma {:induction false} DefaultExtensionsKnown()
    ensures forall e :: e in DefaultConfig.includedExtensions ==> FromExtension(e) != Unknown
    ensures FromExtension(".C") == C && FromExtension(".H") == C
  {
    DefaultKnownScript();
    DefaultKnownCpp();
    DefaultKnownCPython();
    DefaultKnownOthers();
  }
}
