/** Impact analysis of the analysis core: which symbols of an analysed
    directory look changed, where they are referenced, how risky each change
    is, and the totals of a report. Files are the per-file analysis results
    of `CoreTypes`; paths are compared as strings. */
module CoreImpact {
  import opened Wrappers
  import opened Strs
  import opened Seqs
  import opened CoreTypes

  datatype RiskLevel = Low | Medium | High

  /** Position of a risk level in the order Low < Medium < High. */
  function RiskRank(r: RiskLevel): nat {
    match r
    case Low => 0
    case Medium => 1
    case High => 2
  }

  datatype ChangeType =
    | FunctionAdded | FunctionRemoved | FunctionModified
    | ClassAdded | ClassRemoved | ClassModified
    | SignatureChanged | TypeChanged

  datatype SymbolReference = SymbolReference(
    filePath: string,
    lineNumber: nat,
    context: string,
    usageType: string)

  datatype ChangedSymbol = ChangedSymbol(
    name: string,
    symbolType: string,
    filePath: string,
    lineNumber: nat,
    changeType: ChangeType,
    signatureBefore: Option<string>,
    signatureAfter: Option<string>,
    references: seq<SymbolReference>,
    riskLevel: RiskLevel,
    breakingChange: bool)

  // ---------------------------------------------------------------------------
  // Risk
  // ---------------------------------------------------------------------------

  predicate IsRemoval(t: ChangeType) {
    t == FunctionRemoved || t == ClassRemoved
  }

  /** `assess_risk_level`: a removal that is still referenced is High; then
      a breaking change or more than ten references is High; then more than
      three references or a signature change is Medium; anything else Low. */
  function AssessRiskLevel(s: ChangedSymbol): (r: RiskLevel)
    ensures r == High <==> (IsRemoval(s.changeType) && |s.references| > 0) || s.breakingChange || |s.references| > 10
    ensures r == Medium <==> r != High && (|s.references| > 3 || s.changeType == SignatureChanged)
    ensures r == Low <==> r != High && |s.references| <= 3 && s.changeType != SignatureChanged
  {
    var refs := |s.references|;
    if IsRemoval(s.changeType) && refs > 0 then High
    else if s.breakingChange || refs > 10 then High
    else if refs > 3 || s.changeType == SignatureChanged then Medium
    else Low
  }

  /** More references never lower a symbol's risk. */
  lemma {:induction false} RiskMonotoneInReferences(s: ChangedSymbol, more: seq<SymbolReference>)
    ensures RiskRank(AssessRiskLevel(s)) <= RiskRank(AssessRiskLevel(s.(references := s.references + more)))
  {
  }

  /** The two cases the risk test names: an unreferenced, non-breaking
      modification is Low, and a referenced breaking signature change is
      High. */
  lemma RiskExamples(s: ChangedSymbol)
    ensures s.references == [] && !s.breakingChange && s.changeType == FunctionModified ==>
              AssessRiskLevel(s) == Low
    ensures |s.references| == 15 && s.breakingChange && s.changeType == SignatureChanged ==>
              AssessRiskLevel(s) == High
  {
  }

  predicate IsHighRisk(s: ChangedSymbol) { s.riskLevel == High }

  predicate IsMediumRisk(s: ChangedSymbol) { s.riskLevel == Medium }

  /** `calculate_overall_risk`: High if any symbol is High, else Medium if
      any is Medium, else Low. */
  function CalculateOverallRisk(ss: seq<ChangedSymbol>): (r: RiskLevel)
    ensures forall k :: 0 <= k < |ss| ==> RiskRank(ss[k].riskLevel) <= RiskRank(r)
    ensures |ss| > 0 ==> exists k :: 0 <= k < |ss| && ss[k].riskLevel == r
    ensures |ss| == 0 ==> r == Low
  {
    CountWherePositive(IsHighRisk, ss);
    CountWherePositive(IsMediumRisk, ss);
    if CountWhere(IsHighRisk, ss) > 0 then High
    else if CountWhere(IsMediumRisk, ss) > 0 then Medium
    else
      assert |ss| > 0 ==> ss[0].riskLevel == Low;
      Low
  }

  // ---------------------------------------------------------------------------
  // Affected files and totals
  // ---------------------------------------------------------------------------

  function ReferencePaths(refs: seq<SymbolReference>): (r: set<string>)
    ensures forall p :: p in r <==> exists j :: 0 <= j < |refs| && refs[j].filePath == p
    decreases |refs|
  {
    if |refs| == 0 then {}
    else
      var rest := ReferencePaths(refs[1..]);
      assert forall j :: 1 <= j < |refs| ==> refs[j] == refs[1..][j - 1];
      {refs[0].filePath} + rest
  }

  /** A path a changed symbol touches: its own file or a file referring to it. */
  predicate Touches(s: ChangedSymbol, p: string) {
    s.filePath == p || exists j :: 0 <= j < |s.references| && s.references[j].filePath == p
  }

  /** `identify_affected_files`, as a set since the source collects a hash
      set: the symbols' own files and every file that refers to them. */
  function IdentifyAffectedFiles(ss: seq<ChangedSymbol>): (r: set<string>)
    ensures forall p :: p in r <==> exists k :: 0 <= k < |ss| && Touches(ss[k], p)
    decreases |ss|
  {
    if |ss| == 0 then {}
    else
      var rest := IdentifyAffectedFiles(ss[1..]);
      assert forall k :: 1 <= k < |ss| ==> ss[k] == ss[1..][k - 1];
      {ss[0].filePath} + ReferencePaths(ss[0].references) + rest
  }

  const U32Modulus: nat := 0x1_0000_0000

  predicate IsBreaking(s: ChangedSymbol) { s.breakingChange }

  function ReferenceCount(s: ChangedSymbol): nat { |s.references| }

  /** The two totals of `analyze_impact`: breaking symbols and references,
      each narrowed to `u32` by `as u32`. */
  method CountTotals(ss: seq<ChangedSymbol>) returns (breaking: nat, references: nat)
    ensures breaking == CountWhere(IsBreaking, ss) % U32Modulus
    ensures references == Sum(MapSeq(ReferenceCount, ss)) % U32Modulus
    ensures breaking <= |ss|
  {
    var b := 0;
    var refs := 0;
    var i := 0;
    while i < |ss|
      invariant 0 <= i <= |ss|
      invariant b == CountWhere(IsBreaking, ss[..i])
      invariant refs == Sum(MapSeq(ReferenceCount, ss[..i]))
    {
      assert ss[..i + 1] == ss[..i] + [ss[i]];
      CountWhereAppend(IsBreaking, ss[..i], [ss[i]]);
      assert MapSeq(ReferenceCount, ss[..i + 1]) == MapSeq(ReferenceCount, ss[..i]) + [ReferenceCount(ss[i])];
      SumAppend(MapSeq(ReferenceCount, ss[..i]), [ReferenceCount(ss[i])]);
      if ss[i].breakingChange {
        b := b + 1;
      }
      refs := refs + |ss[i].references|;
      i := i + 1;
    }
    assert ss[..|ss|] == ss;
    breaking := b % U32Modulus;
    references := refs % U32Modulus;
  }

  // ---------------------------------------------------------------------------
  // Signatures
  // ---------------------------------------------------------------------------

  /** `format_function_signature`: `name(p1, p2, ...)`. */
  function FormatFunctionSignature(f: FunctionInfo): (r: string)
    ensures StartsWith(r, f.name + "(") && EndsWith(r, ")")
    ensures |r| >= |f.name| + 2
  {
    var r := f.name + "(" + JoinWith(f.parameters, ", ") + ")";
    assert r[..|f.name + "("|] == f.name + "(";
    assert r[|r| - 1..] == ")";
    r
  }

  /** The name is what precedes the first `(` of the signature, when the
      name itself has none. */
  lemma {:induction false} SignatureName(f: FunctionInfo)
    requires '(' !in f.name
    ensures Find(FormatFunctionSignature(f), "(") == Some(|f.name|)
  {
    var r := FormatFunctionSignature(f);
    assert r[|f.name|] == '(';
    assert Occurs(r, "(", |f.name|);
    forall j | 0 <= j < |f.name| ensures !Occurs(r, "(", j) {
      assert r[j] == f.name[j];
    }
  }

  // ---------------------------------------------------------------------------
  // Change detection without history
  // ---------------------------------------------------------------------------

  /** The calls of every file, in file order. */
  function AllCalls(files: seq<AnalysisResult>): seq<FunctionCall>
    decreases |files|
  {
    if |files| == 0 then [] else files[0].functionCalls + AllCalls(files[1..])
  }

  function CallsTo(name: string): FunctionCall -> bool {
    (c: FunctionCall) => c.functionName == name
  }

  /** How often `name` is called, the usage count of the first pass. */
  function UsageCount(calls: seq<FunctionCall>, name: string): nat {
    CountWhere(CallsTo(name), calls)
  }

  /** The naming, arity and usage patterns that mark a function as likely
      changed. */
  predicate FunctionLikelyChanged(f: FunctionInfo, usage: nat) {
    || Contains(f.name, "new") || Contains(f.name, "update") || Contains(f.name, "modify")
    || Contains(f.name, "change") || Contains(f.name, "API") || Contains(f.name, "Feature")
    || EndsWith(f.name, "New") || StartsWith(f.name, "new")
    || |f.parameters| > 2 || usage >= 2
  }

  predicate FunctionBreaking(f: FunctionInfo, usage: nat) {
    |f.parameters| > 3 || Contains(f.name, "API") || Contains(f.name, "new") || usage >= 3
  }

  /** Every function judged breaking is also judged changed. */
  lemma {:induction false} BreakingIsChanged(f: FunctionInfo, usage: nat)
    requires FunctionBreaking(f, usage)
    ensures FunctionLikelyChanged(f, usage)
  {
  }

  predicate ClassLikelyChanged(c: ClassInfo) {
    || Contains(c.name, "New") || Contains(c.name, "Updated") || Contains(c.name, "Manager")
    || StartsWith(c.name, "New") || |c.methods| > 0
  }

  function FunctionSymbol(path: string, f: FunctionInfo, usage: nat): ChangedSymbol {
    ChangedSymbol(f.name, "function", path, f.startLine,
                  if Contains(f.name, "new") then FunctionAdded else FunctionModified,
                  None, Some(FormatFunctionSignature(f)), [], Low, FunctionBreaking(f, usage))
  }

  function ClassSymbol(path: string, c: ClassInfo): ChangedSymbol {
    ChangedSymbol(c.name, "class", path, c.startLine,
                  if Contains(c.name, "New") then ClassAdded else ClassModified,
                  None, Some("class " + c.name), [], Low,
                  |c.methods| > 0 || Contains(c.name, "Manager"))
  }

  /** `s` is the symbol of a function of `fs`, in a file at `path`, that
      looks changed. */
  predicate FunctionReported(path: string, fs: seq<FunctionInfo>, calls: seq<FunctionCall>, s: ChangedSymbol) {
    exists j :: 0 <= j < |fs| && FunctionLikelyChanged(fs[j], UsageCount(calls, fs[j].name))
                && s == FunctionSymbol(path, fs[j], UsageCount(calls, fs[j].name))
  }

  /** `s` is the symbol of a class of `cs`, in a file at `path`, that looks
      changed. */
  predicate ClassReported(path: string, cs: seq<ClassInfo>, s: ChangedSymbol) {
    exists j :: 0 <= j < |cs| && ClassLikelyChanged(cs[j]) && s == ClassSymbol(path, cs[j])
  }

  /** The function symbols of one file: each function that looks changed,
      in order. */
  function FunctionChanges(path: string, fs: seq<FunctionInfo>, calls: seq<FunctionCall>): (r: seq<ChangedSymbol>)
    ensures |r| <= |fs|
    ensures forall k :: 0 <= k < |r| ==> FunctionReported(path, fs, calls, r[k])
    ensures forall j :: 0 <= j < |fs| && FunctionLikelyChanged(fs[j], UsageCount(calls, fs[j].name)) ==>
              FunctionSymbol(path, fs[j], UsageCount(calls, fs[j].name)) in r
    decreases |fs|
  {
    if |fs| == 0 then []
    else
      var u := UsageCount(calls, fs[0].name);
      var rest := FunctionChanges(path, fs[1..], calls);
      FunctionReportedTail(path, fs, calls, rest);
      assert forall j :: 1 <= j < |fs| ==> fs[j] == fs[1..][j - 1];
      if FunctionLikelyChanged(fs[0], u) then
        assert FunctionReported(path, fs, calls, FunctionSymbol(path, fs[0], u));
        [FunctionSymbol(path, fs[0], u)] + rest
      else rest
  }

  lemma {:induction false} FunctionReportedTail(path: string, fs: seq<FunctionInfo>, calls: seq<FunctionCall>,
                                                rest: seq<ChangedSymbol>)
    requires |fs| > 0
    requires forall k :: 0 <= k < |rest| ==> FunctionReported(path, fs[1..], calls, rest[k])
    ensures forall k :: 0 <= k < |rest| ==> FunctionReported(path, fs, calls, rest[k])
  {
    forall k | 0 <= k < |rest| ensures FunctionReported(path, fs, calls, rest[k]) {
      var j :| 0 <= j < |fs[1..]| && FunctionLikelyChanged(fs[1..][j], UsageCount(calls, fs[1..][j].name))
               && rest[k] == FunctionSymbol(path, fs[1..][j], UsageCount(calls, fs[1..][j].name));
      assert fs[1..][j] == fs[j + 1];
    }
  }

  /** The class symbols of one file: each class that looks changed, in order. */
  function ClassChanges(path: string, cs: seq<ClassInfo>): (r: seq<ChangedSymbol>)
    ensures |r| <= |cs|
    ensures forall k :: 0 <= k < |r| ==> ClassReported(path, cs, r[k])
    ensures forall j :: 0 <= j < |cs| && ClassLikelyChanged(cs[j]) ==> ClassSymbol(path, cs[j]) in r
    decreases |cs|
  {
    if |cs| == 0 then []
    else
      var rest := ClassChanges(path, cs[1..]);
      ClassReportedTail(path, cs, rest);
      assert forall j :: 1 <= j < |cs| ==> cs[j] == cs[1..][j - 1];
      if ClassLikelyChanged(cs[0]) then
        assert ClassReported(path, cs, ClassSymbol(path, cs[0]));
        [ClassSymbol(path, cs[0])] + rest
      else rest
  }

  lemma {:induction false} ClassReportedTail(path: string, cs: seq<ClassInfo>, rest: seq<ChangedSymbol>)
    requires |cs| > 0
    requires forall k :: 0 <= k < |rest| ==> ClassReported(path, cs[1..], rest[k])
    ensures forall k :: 0 <= k < |rest| ==> ClassReported(path, cs, rest[k])
  {
    forall k | 0 <= k < |rest| ensures ClassReported(path, cs, rest[k]) {
      assert ClassReported(path, cs[1..], rest[k]);
      var j :| 0 <= j < |cs[1..]| && ClassLikelyChanged(cs[1..][j]) && rest[k] == ClassSymbol(path, cs[1..][j]);
      assert cs[1..][j] == cs[j + 1];
    }
  }

  /** `s` is reported for one of `files`. */
  predicate ReportedFrom(files: seq<AnalysisResult>, calls: seq<FunctionCall>, s: ChangedSymbol) {
    exists i :: 0 <= i < |files| && ReportedIn(files[i], calls, s)
  }

  predicate ReportedIn(file: AnalysisResult, calls: seq<FunctionCall>, s: ChangedSymbol) {
    || FunctionReported(file.fileInfo.path, file.functions, calls, s)
    || ClassReported(file.fileInfo.path, file.classes, s)
  }

  /** The symbols of `files`, each file's functions before its classes,
      with usage counted over `calls`. */
  function ChangesIn(files: seq<AnalysisResult>, calls: seq<FunctionCall>): (r: seq<ChangedSymbol>)
    ensures forall i, j :: (0 <= i < |files| && 0 <= j < |files[i].functions|
              && FunctionLikelyChanged(files[i].functions[j], UsageCount(calls, files[i].functions[j].name))) ==>
              FunctionSymbol(files[i].fileInfo.path, files[i].functions[j],
                             UsageCount(calls, files[i].functions[j].name)) in r
    ensures forall i, j :: (0 <= i < |files| && 0 <= j < |files[i].classes|
              && ClassLikelyChanged(files[i].classes[j])) ==>
              ClassSymbol(files[i].fileInfo.path, files[i].classes[j]) in r
    ensures forall k :: 0 <= k < |r| ==> ReportedFrom(files, calls, r[k])
    decreases |files|
  {
    if |files| == 0 then []
    else
      var f := files[0];
      var fc := FunctionChanges(f.fileInfo.path, f.functions, calls);
      var cc := ClassChanges(f.fileInfo.path, f.classes);
      var rest := ChangesIn(files[1..], calls);
      assert forall i :: 1 <= i < |files| ==> files[i] == files[1..][i - 1];
      ReportedFromFirst(files, calls, fc, cc);
      ReportedFromRest(files, calls, rest);
      ConcatReported(files, calls, fc + cc, rest);
      fc + cc + rest
  }

  lemma {:induction false} ReportedFromFirst(files: seq<AnalysisResult>, calls: seq<FunctionCall>,
                                             fc: seq<ChangedSymbol>, cc: seq<ChangedSymbol>)
    requires |files| > 0
    requires forall k :: 0 <= k < |fc| ==> FunctionReported(files[0].fileInfo.path, files[0].functions, calls, fc[k])
    requires forall k :: 0 <= k < |cc| ==> ClassReported(files[0].fileInfo.path, files[0].classes, cc[k])
    ensures forall k :: 0 <= k < |fc + cc| ==> ReportedFrom(files, calls, (fc + cc)[k])
  {
    forall k | 0 <= k < |fc + cc| ensures ReportedFrom(files, calls, (fc + cc)[k]) {
      if k < |fc| {
        assert (fc + cc)[k] == fc[k];
      } else {
        assert (fc + cc)[k] == cc[k - |fc|];
      }
      assert ReportedIn(files[0], calls, (fc + cc)[k]);
    }
  }

  lemma {:induction false} ReportedFromRest(files: seq<AnalysisResult>, calls: seq<FunctionCall>,
                                            rest: seq<ChangedSymbol>)
    requires |files| > 0
    requires forall k :: 0 <= k < |rest| ==> ReportedFrom(files[1..], calls, rest[k])
    ensures forall k :: 0 <= k < |rest| ==> ReportedFrom(files, calls, rest[k])
  {
    forall k | 0 <= k < |rest| ensures ReportedFrom(files, calls, rest[k]) {
      var i :| 0 <= i < |files[1..]| && ReportedIn(files[1..][i], calls, rest[k]);
      assert files[1..][i] == files[i + 1];
    }
  }

  lemma {:induction false} ConcatReported(files: seq<AnalysisResult>, calls: seq<FunctionCall>,
                                          a: seq<ChangedSymbol>, b: seq<ChangedSymbol>)
    requires forall k :: 0 <= k < |a| ==> ReportedFrom(files, calls, a[k])
    requires forall k :: 0 <= k < |b| ==> ReportedFrom(files, calls, b[k])
    ensures forall k :: 0 <= k < |a + b| ==> ReportedFrom(files, calls, (a + b)[k])
  {
    forall k | 0 <= k < |a + b| ensures ReportedFrom(files, calls, (a + b)[k]) {
      if k < |a| {
        assert (a + b)[k] == a[k];
      } else {
        assert (a + b)[k] == b[k - |a|];
      }
    }
  }

  /** `detect_changed_symbols`: every function and class of the directory
      that looks changed, and nothing else, with usage counted over all
      calls of the directory. */
  function DetectChangedSymbols(files: seq<AnalysisResult>): (r: seq<ChangedSymbol>)
    ensures forall k :: 0 <= k < |r| ==> ReportedFrom(files, AllCalls(files), r[k])
    ensures forall i, j :: (0 <= i < |files| && 0 <= j < |files[i].classes|
              && ClassLikelyChanged(files[i].classes[j])) ==>
              ClassSymbol(files[i].fileInfo.path, files[i].classes[j]) in r
    ensures forall k :: 0 <= k < |r| ==>
              (r[k].changeType == FunctionAdded <==> r[k].symbolType == "function" && Contains(r[k].name, "new"))
  {
    var r := ChangesIn(files, AllCalls(files));
    forall k | 0 <= k < |r|
      ensures r[k].changeType == FunctionAdded <==> r[k].symbolType == "function" && Contains(r[k].name, "new")
    {
      var i :| 0 <= i < |files| && ReportedIn(files[i], AllCalls(files), r[k]);
    }
    r
  }

  /** A reported function symbol is breaking exactly when the function is
      judged breaking, and a function that looks changed is reported. */
  lemma {:induction false} DetectedFunctions(files: seq<AnalysisResult>, i: nat, j: nat)
    requires i < |files| && j < |files[i].functions|
    ensures var f := files[i].functions[j];
            var u := UsageCount(AllCalls(files), f.name);
            FunctionLikelyChanged(f, u) ==> FunctionSymbol(files[i].fileInfo.path, f, u) in DetectChangedSymbols(files)
    ensures var f := files[i].functions[j];
            var u := UsageCount(AllCalls(files), f.name);
            FunctionSymbol(files[i].fileInfo.path, f, u).breakingChange <==> FunctionBreaking(f, u)
  {
  }

  // ---------------------------------------------------------------------------
  // References
  // ---------------------------------------------------------------------------

  function MatchesCall(s: ChangedSymbol): FunctionCall -> bool {
    (c: FunctionCall) => c.functionName == s.name || Contains(FullName(c), s.name)
  }

  function CallRef(path: string): FunctionCall -> SymbolReference {
    (c: FunctionCall) => SymbolReference(path, c.lineNumber, FullName(c) + "()", "call")
  }

  function ImportsName(s: ChangedSymbol): ImportInfo -> bool {
    (i: ImportInfo) => s.name in i.importedNames
  }

  function ImportRef(path: string, s: ChangedSymbol): ImportInfo -> SymbolReference {
    (i: ImportInfo) => SymbolReference(path, i.lineNumber, "import " + s.name + " from '" + i.modulePath + "'", "import")
  }

  function ExportsName(s: ChangedSymbol): ExportInfo -> bool {
    (e: ExportInfo) => s.name in e.exportedNames
  }

  function ExportRef(path: string, s: ChangedSymbol): ExportInfo -> SymbolReference {
    (e: ExportInfo) => SymbolReference(path, e.lineNumber, "export " + s.name, "export")
  }

  function DefinesName(s: ChangedSymbol): FunctionInfo -> bool {
    (f: FunctionInfo) => f.name == s.name
  }

  function DefinitionRef(path: string): FunctionInfo -> SymbolReference {
    (f: FunctionInfo) => SymbolReference(path, f.startLine, "function " + f.name + "(" + JoinWith(f.parameters, ", ") + ")", "definition")
  }

  /** A function whose lower-cased name mentions "new" and the symbol's
      lower-cased name: taken for a constructor call. */
  function ConstructsName(s: ChangedSymbol): FunctionInfo -> bool {
    (f: FunctionInfo) => Contains(Lower(f.name), "new") && Contains(Lower(f.name), Lower(s.name))
  }

  function ConstructorRef(path: string, s: ChangedSymbol): FunctionInfo -> SymbolReference {
    (f: FunctionInfo) => SymbolReference(path, f.startLine, "new " + s.name + "()", "constructor")
  }

  function ExtendsName(s: ChangedSymbol): ClassInfo -> bool {
    (c: ClassInfo) => c.parentClass == Some(s.name)
  }

  function InheritanceRef(path: string, s: ChangedSymbol): ClassInfo -> SymbolReference {
    (c: ClassInfo) => SymbolReference(path, c.startLine, "class " + c.name + " extends " + s.name, "inheritance")
  }

  /** The usage kinds a reference may carry for symbol `s`: definitions only
      from other files, constructor and inheritance only for classes. */
  predicate RefAllowed(s: ChangedSymbol, r: SymbolReference) {
    && r.usageType in {"call", "import", "export", "definition", "constructor", "inheritance"}
    && (r.usageType == "definition" ==> r.filePath != s.filePath)
    && (r.usageType in {"constructor", "inheritance"} ==> s.symbolType == "class")
  }

  /** The references one file holds to `s`, in the order the source adds
      them. */
  function RefsInFile(s: ChangedSymbol, file: AnalysisResult): (r: seq<SymbolReference>)
    ensures forall k :: 0 <= k < |r| ==> RefAllowed(s, r[k]) && r[k].filePath == file.fileInfo.path
    ensures forall c :: c in file.functionCalls && MatchesCall(s)(c) ==> CallRef(file.fileInfo.path)(c) in r
  {
    var path := file.fileInfo.path;
    var calls := MapSeq(CallRef(path), Filter(MatchesCall(s), file.functionCalls));
    var imports := MapSeq(ImportRef(path, s), Filter(ImportsName(s), file.imports));
    var exports := MapSeq(ExportRef(path, s), Filter(ExportsName(s), file.exports));
    var defs := if path != s.filePath then MapSeq(DefinitionRef(path), Filter(DefinesName(s), file.functions)) else [];
    var ctors := if s.symbolType == "class" then MapSeq(ConstructorRef(path, s), Filter(ConstructsName(s), file.functions)) else [];
    var inherits := if s.symbolType == "class" then MapSeq(InheritanceRef(path, s), Filter(ExtendsName(s), file.classes)) else [];
    CallRefsComplete(s, path, file.functionCalls);
    RefsAllowed6(s, path, calls, imports, exports, defs, ctors, inherits);
    calls + imports + exports + defs + ctors + inherits
  }

  /** Every matching call yields its call reference. */
  lemma {:induction false} CallRefsComplete(s: ChangedSymbol, path: string, calls: seq<FunctionCall>)
    ensures forall c :: c in calls && MatchesCall(s)(c) ==>
              CallRef(path)(c) in MapSeq(CallRef(path), Filter(MatchesCall(s), calls))
  {
    var fs := Filter(MatchesCall(s), calls);
    forall c | c in calls && MatchesCall(s)(c) ensures CallRef(path)(c) in MapSeq(CallRef(path), fs) {
      FilterKeeps(MatchesCall(s), calls, c);
      var k :| 0 <= k < |fs| && fs[k] == c;
      assert MapSeq(CallRef(path), fs)[k] == CallRef(path)(c);
    }
  }

  lemma {:induction false} RefsAllowed6(s: ChangedSymbol, path: string,
                                        a: seq<SymbolReference>, b: seq<SymbolReference>, c: seq<SymbolReference>,
                                        d: seq<SymbolReference>, e: seq<SymbolReference>, f: seq<SymbolReference>)
    requires forall k :: 0 <= k < |a| ==> a[k].usageType == "call" && a[k].filePath == path
    requires forall k :: 0 <= k < |b| ==> b[k].usageType == "import" && b[k].filePath == path
    requires forall k :: 0 <= k < |c| ==> c[k].usageType == "export" && c[k].filePath == path
    requires forall k :: 0 <= k < |d| ==> d[k].usageType == "definition" && d[k].filePath == path && path != s.filePath
    requires forall k :: 0 <= k < |e| ==> e[k].usageType == "constructor" && e[k].filePath == path && s.symbolType == "class"
    requires forall k :: 0 <= k < |f| ==> f[k].usageType == "inheritance" && f[k].filePath == path && s.symbolType == "class"
    ensures var r := a + b + c + d + e + f;
            forall k :: 0 <= k < |r| ==> RefAllowed(s, r[k]) && r[k].filePath == path
  {
    var r := a + b + c + d + e + f;
    forall k | 0 <= k < |r| ensures RefAllowed(s, r[k]) && r[k].filePath == path {
      var x := r[k];
      assert x in a || x in b || x in c || x in d || x in e || x in f;
    }
  }

  /** The reference lies in one of `files`. */
  predicate InSomeFile(files: seq<AnalysisResult>, r: SymbolReference) {
    exists i :: 0 <= i < |files| && r.filePath == files[i].fileInfo.path
  }

  /** `find_symbol_references`: the references of every file, in file
      order. */
  function FindSymbolReferences(s: ChangedSymbol, files: seq<AnalysisResult>): (r: seq<SymbolReference>)
    ensures forall k :: 0 <= k < |r| ==> RefAllowed(s, r[k]) && InSomeFile(files, r[k])
    ensures forall i, c :: (0 <= i < |files| && c in files[i].functionCalls && MatchesCall(s)(c)) ==>
              CallRef(files[i].fileInfo.path)(c) in r
    decreases |files|
  {
    if |files| == 0 then []
    else
      var here := RefsInFile(s, files[0]);
      var rest := FindSymbolReferences(s, files[1..]);
      RefsConcat(s, files, here, rest);
      here + rest
  }

  lemma {:induction false} RefsConcat(s: ChangedSymbol, files: seq<AnalysisResult>,
                                      here: seq<SymbolReference>, rest: seq<SymbolReference>)
    requires |files| > 0
    requires forall k :: 0 <= k < |here| ==> RefAllowed(s, here[k]) && here[k].filePath == files[0].fileInfo.path
    requires forall c :: c in files[0].functionCalls && MatchesCall(s)(c) ==> CallRef(files[0].fileInfo.path)(c) in here
    requires forall k :: 0 <= k < |rest| ==> RefAllowed(s, rest[k]) && InSomeFile(files[1..], rest[k])
    requires forall i, c :: (0 <= i < |files[1..]| && c in files[1..][i].functionCalls && MatchesCall(s)(c)) ==>
               CallRef(files[1..][i].fileInfo.path)(c) in rest
    ensures forall k :: 0 <= k < |here + rest| ==> RefAllowed(s, (here + rest)[k]) && InSomeFile(files, (here + rest)[k])
    ensures forall i, c :: (0 <= i < |files| && c in files[i].functionCalls && MatchesCall(s)(c)) ==>
              CallRef(files[i].fileInfo.path)(c) in here + rest
  {
    forall k | 0 <= k < |here + rest| ensures RefAllowed(s, (here + rest)[k]) && InSomeFile(files, (here + rest)[k]) {
      if k < |here| {
        assert (here + rest)[k] == here[k];
      } else {
        var x := rest[k - |here|];
        assert (here + rest)[k] == x;
        var i :| 0 <= i < |files[1..]| && x.filePath == files[1..][i].fileInfo.path;
        assert files[1..][i] == files[i + 1];
      }
    }
    forall i, c | 0 <= i < |files| && c in files[i].functionCalls && MatchesCall(s)(c)
      ensures CallRef(files[i].fileInfo.path)(c) in here + rest
    {
      if i > 0 {
        assert files[1..][i - 1] == files[i];
      }
    }
  }

  /** A symbol that is not a class is never referenced as constructed or
      inherited, and no file refers to a symbol by re-defining it in the
      symbol's own file. */
  lemma {:induction false} NoClassRefsForFunctions(s: ChangedSymbol, files: seq<AnalysisResult>)
    requires s.symbolType != "class"
    ensures forall k :: 0 <= k < |FindSymbolReferences(s, files)| ==>
              FindSymbolReferences(s, files)[k].usageType in {"call", "import", "export", "definition"}
  {
    var r := FindSymbolReferences(s, files);
    assert forall k :: 0 <= k < |r| ==> RefAllowed(s, r[k]);
  }

  // ---------------------------------------------------------------------------
  // Name-level diff of two versions of a file
  // ---------------------------------------------------------------------------

  function NameSet(fs: seq<FunctionInfo>): set<string> {
    set f | f in fs :: f.name
  }

  function NameAbsent(others: seq<FunctionInfo>): FunctionInfo -> bool {
    (f: FunctionInfo) => f.name !in NameSet(others)
  }

  /** The diff of `compare_functions_between_refs`: the base functions whose
      name the current version lacks, and the current functions whose name
      the base lacks, each in its original order. */
  function NameDiff(base: seq<FunctionInfo>, current: seq<FunctionInfo>): (r: (seq<FunctionInfo>, seq<FunctionInfo>))
    ensures IsFilterOf(r.0, base, NameAbsent(current))
    ensures IsFilterOf(r.1, current, NameAbsent(base))
  {
    FilterIsFilterOf(NameAbsent(current), base);
    FilterIsFilterOf(NameAbsent(base), current);
    (Filter(NameAbsent(current), base), Filter(NameAbsent(base), current))
  }

  /** A function is deleted exactly when it is in the base and its name is
      gone from the current version; added symmetrically. */
  lemma {:induction false} NameDiffMembers(base: seq<FunctionInfo>, current: seq<FunctionInfo>, f: FunctionInfo)
    ensures f in NameDiff(base, current).0 <==> f in base && f.name !in NameSet(current)
    ensures f in NameDiff(base, current).1 <==> f in current && f.name !in NameSet(base)
  {
    if f in base && f.name !in NameSet(current) {
      FilterKeeps(NameAbsent(current), base, f);
    }
    if f in current && f.name !in NameSet(base) {
      FilterKeeps(NameAbsent(base), current, f);
    }
  }

  /** A version compared with itself has nothing deleted and nothing added. */
  lemma {:induction false} NameDiffSelf(fs: seq<FunctionInfo>)
    ensures NameDiff(fs, fs) == ([], [])
  {
    var d := NameDiff(fs, fs).0;
    assert forall f :: f in fs ==> !NameAbsent(fs)(f);
  }
}
