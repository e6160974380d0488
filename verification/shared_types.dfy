/** The parser-independent data model shared by the workspace tools
    (`nekocode-core/src/types.rs`). */
module SharedTypes {
  import opened Wrappers
  import opened Strs
  import opened Seqs
  import opened Paths
  import opened Langs
  import CoreTypes

  /** `Language::from_extension`: the extension without its dot, compared
      after lowercasing. */
  function FromExtension(ext: string): Language {
    var e := Lower(ext);
    if e in {"js", "mjs", "jsx", "cjs"} then JavaScript
    else if e in {"ts", "tsx"} then TypeScript
    else if e in {"cpp", "cxx", "cc", "hpp", "hxx", "hh", "h++", "c++"} then Cpp
    else if e in {"c", "h"} then C
    else if e in {"py", "pyw", "pyi"} then Python
    else if e == "cs" then CSharp
    else if e == "go" then Go
    else if e == "rs" then Rust
    else Unknown
  }

  /** `Language::extensions`. */
  function Extensions(l: Language): seq<string> {
    match l
    case JavaScript => ["js", "mjs", "jsx", "cjs"]
    case TypeScript => ["ts", "tsx"]
    case Cpp => ["cpp", "cxx", "cc", "hpp", "hxx", "hh", "h++", "c++"]
    case C => ["c", "h"]
    case Python => ["py", "pyw", "pyi"]
    case CSharp => ["cs"]
    case Go => ["go"]
    case Rust => ["rs"]
    case Unknown => []
  }

  /** Every listed extension of a language is recognised as that language. */
  lemma {:induction false} ExtensionsRoundTrip(l: Language)
    ensures forall k :: 0 <= k < |Extensions(l)| ==> FromExtension(Extensions(l)[k]) == l
    ensures l == Unknown <==> Extensions(l) == []
  {
    var es := Extensions(l);
    forall k | 0 <= k < |es| ensures FromExtension(es[k]) == l {
      LowerUnchanged(es[k]);
    }
  }

  /** And conversely: a recognised extension is, lowercased, one of the
      extensions its language lists. */
  lemma {:induction false} FromExtensionListed(ext: string)
    requires FromExtension(ext) != Unknown
    ensures Lower(ext) in Extensions(FromExtension(ext))
  {
  }

  /** `Language::from_path`: the language of the path's extension, Unknown
      when the path has none. */
  function FromPath(path: string): (l: Language)
    ensures Extension(path).None? ==> l == Unknown
  {
    match Extension(path)
    case None => Unknown
    case Some(e) => FromExtension(e)
  }

  /** The language of a plain file name `stem.ext` is the language of `ext`. */
  lemma {:induction false} FromPathOfFileName(stem: string, ext: string)
    requires '/' !in stem && '.' !in stem && stem != ""
    requires '/' !in ext && '.' !in ext
    ensures FromPath(stem + "." + ext) == FromExtension(ext)
  {
    var p := stem + "." + ext;
    assert '/' !in p by {
      forall i | 0 <= i < |p| ensures p[i] != '/' {
        if i < |stem| { assert p[i] == stem[i]; }
        else if i > |stem| { assert p[i] == ext[i - |stem| - 1]; }
      }
    }
    SplitFree(p, '/');
    assert p != "." && p != ".." by { assert p[|stem|] == '.'; assert stem[0] == p[0]; }
    assert p[0] != '/';
    assert PieceComponents([p]) == [Normal(p)] + PieceComponents([]);
    assert Components(p) == [Normal(p)];
    assert FileName(p) == Some(p);
    assert RFindChar(p, '.') == Some(|stem|) by {
      RFindLast(p, '.', |stem|);
    }
    assert p[|stem| + 1..] == ext;
  }

  /** The dotted table of the single-crate tool knows every extension listed
      here, with the same language, except "h++" and "c++". */
  lemma {:induction false} DottedAgrees(l: Language)
    ensures forall k :: 0 <= k < |Extensions(l)| && Extensions(l)[k] !in {"h++", "c++"} ==>
              CoreTypes.FromExtension("." + Extensions(l)[k]) == l
  {
    DottedAgreesOnJavaScript();
    DottedAgreesOnTypeScript();
    DottedAgreesOnCpp();
    DottedAgreesOnC();
    DottedAgreesOnPython();
    DottedAgreesOnCSharp();
    DottedAgreesOnGo();
    DottedAgreesOnRust();
  }

  lemma {:induction false} DottedAgreesOnJavaScript()
    ensures CoreTypes.FromExtension("." + "js") == JavaScript
    ensures CoreTypes.FromExtension("." + "mjs") == JavaScript
    ensures CoreTypes.FromExtension("." + "jsx") == JavaScript
    ensures CoreTypes.FromExtension("." + "cjs") == JavaScript
  {
    assert "." + "js" == ".js";
    LowerUnchanged(".js");
    assert "." + "mjs" == ".mjs";
    LowerUnchanged(".mjs");
    assert "." + "jsx" == ".jsx";
    LowerUnchanged(".jsx");
    assert "." + "cjs" == ".cjs";
    LowerUnchanged(".cjs");
  }

  lemma {:induction false} DottedAgreesOnTypeScript()
    ensures CoreTypes.FromExtension("." + "ts") == TypeScript
    ensures CoreTypes.FromExtension("." + "tsx") == TypeScript
  {
    assert "." + "ts" == ".ts";
    LowerUnchanged(".ts");
    assert "." + "tsx" == ".tsx";
    LowerUnchanged(".tsx");
  }

  lemma {:induction false} DottedAgreesOnCpp()
    ensures CoreTypes.FromExtension("." + "cpp") == Cpp
    ensures CoreTypes.FromExtension("." + "cxx") == Cpp
    ensures CoreTypes.FromExtension("." + "cc") == Cpp
    ensures CoreTypes.FromExtension("." + "hpp") == Cpp
    ensures CoreTypes.FromExtension("." + "hxx") == Cpp
    ensures CoreTypes.FromExtension("." + "hh") == Cpp
  {
    assert "." + "cpp" == ".cpp";
    LowerUnchanged(".cpp");
    assert "." + "cxx" == ".cxx";
    LowerUnchanged(".cxx");
    assert "." + "cc" == ".cc";
    LowerUnchanged(".cc");
    assert "." + "hpp" == ".hpp";
    LowerUnchanged(".hpp");
    assert "." + "hxx" == ".hxx";
    LowerUnchanged(".hxx");
    assert "." + "hh" == ".hh";
    LowerUnchanged(".hh");
  }

  lemma {:induction false} DottedAgreesOnC()
    ensures CoreTypes.FromExtension("." + "c") == C
    ensures CoreTypes.FromExtension("." + "h") == C
  {
    assert "." + "c" == ".c";
    LowerUnchanged(".c");
    assert "." + "h" == ".h";
    LowerUnchanged(".h");
  }

  lemma {:induction false} DottedAgreesOnPython()
    ensures CoreTypes.FromExtension("." + "py") == Python
    ensures CoreTypes.FromExtension("." + "pyw") == Python
    ensures CoreTypes.FromExtension("." + "pyi") == Python
  {
    assert "." + "py" == ".py";
    LowerUnchanged(".py");
    assert "." + "pyw" == ".pyw";
    LowerUnchanged(".pyw");
    assert "." + "pyi" == ".pyi";
    LowerUnchanged(".pyi");
  }

  lemma {:induction false} DottedAgreesOnCSharp()
    ensures CoreTypes.FromExtension("." + "cs") == CSharp
  {
    assert "." + "cs" == ".cs";
    LowerUnchanged(".cs");
  }

  lemma {:induction false} DottedAgreesOnGo()
    ensures CoreTypes.FromExtension("." + "go") == Go
  {
    assert "." + "go" == ".go";
    LowerUnchanged(".go");
  }

  lemma {:induction false} DottedAgreesOnRust()
    ensures CoreTypes.FromExtension("." + "rs") == Rust
  {
    assert "." + "rs" == ".rs";
    LowerUnchanged(".rs");
  }

  /** Only this table knows "h++" and "c++". */
  lemma {:induction false} DottedLacksPlusPlus()
    ensures CoreTypes.FromExtension(".h++") == Unknown && CoreTypes.FromExtension(".c++") == Unknown
    ensures FromExtension("h++") == Cpp && FromExtension("c++") == Cpp
  {
    LowerUnchanged(".h++");
    LowerUnchanged(".c++");
    LowerUnchanged("h++");
    LowerUnchanged("c++");
  }

  datatype FileInfo = FileInfo(
    name: string,
    path: string,
    language: Language,
    sizeBytes: nat,
    totalLines: nat,
    codeLines: nat,
    commentLines: nat,
    emptyLines: nat,
    hash: Option<string>)

  /** `FileInfo::new`: named after the path's file name ("unknown" when it has
      none), with the language of its extension, zero counts and no hash. */
  function NewFileInfo(path: string): (r: FileInfo)
    ensures r.path == path && r.language == FromPath(path) && r.hash.None?
    ensures r.sizeBytes == 0 && r.totalLines == 0 && r.codeLines == 0
    ensures r.commentLines == 0 && r.emptyLines == 0
    ensures r.name == CoreTypes.NewFileInfo(path).name
  {
    FileInfo(
      match FileName(path) case Some(n) => n case None => "unknown",
      path, FromPath(path), 0, 0, 0, 0, 0, None)
  }

  datatype SymbolType =
    Function | Class | Method | Variable | Constant | Interface
    | Namespace | Module | Struct | Enum | Trait | Type

  datatype Visibility = Public | Private | Protected | Internal | Package

  datatype SymbolInfo = SymbolInfo(
    id: string,
    name: string,
    symbolType: SymbolType,
    filePath: string,
    lineStart: nat,
    lineEnd: nat,
    columnStart: nat,
    columnEnd: nat,
    language: Language,
    visibility: Option<Visibility>,
    parentId: Option<string>)

  datatype ParameterInfo = ParameterInfo(
    name: string,
    paramType: Option<string>,
    defaultValue: Option<string>,
    isOptional: bool,
    isVariadic: bool)

  datatype FunctionInfo = FunctionInfo(
    symbol: SymbolInfo,
    parameters: seq<ParameterInfo>,
    returnType: Option<string>,
    isAsync: bool,
    isStatic: bool,
    isGeneric: bool,
    complexity: Option<nat>)

  datatype ClassInfo = ClassInfo(
    symbol: SymbolInfo,
    baseClasses: seq<string>,
    interfaces: seq<string>,
    methods: seq<string>,
    fields: seq<string>,
    isAbstract: bool,
    isInterface: bool)

  datatype ImportInfo = ImportInfo(
    moduleName: string,
    importedNames: seq<string>,
    alias: Option<string>,
    isDefault: bool,
    isNamespace: bool,
    line: nat)

  datatype ExportInfo = ExportInfo(
    name: string,
    exportType: SymbolType,
    isDefault: bool,
    isReexport: bool,
    sourceModule: Option<string>,
    line: nat)

  datatype CodeMetrics = CodeMetrics(
    linesOfCode: nat,
    linesWithComments: nat,
    blankLines: nat,
    cyclomaticComplexity: Option<nat>)

  datatype AnalysisResult = AnalysisResult(
    fileInfo: FileInfo,
    symbols: seq<SymbolInfo>,
    functions: seq<FunctionInfo>,
    classes: seq<ClassInfo>,
    imports: seq<ImportInfo>,
    exports: seq<ExportInfo>,
    dependencies: seq<string>,
    metrics: CodeMetrics,
    errors: seq<string>)

  function OfType(t: SymbolType): SymbolInfo -> bool {
    (s: SymbolInfo) => s.symbolType == t
  }

  /** `AnalysisResult::get_symbols_by_type`: exactly the symbols of type `t`,
      in their original order. */
  function GetSymbolsByType(a: AnalysisResult, t: SymbolType): (r: seq<SymbolInfo>)
    ensures IsFilterOf(r, a.symbols, OfType(t))
  {
    FilterIsFilterOf(OfType(t), a.symbols);
    Filter(OfType(t), a.symbols)
  }

  /** Symbols of different types never mix. */
  lemma {:induction false} SymbolsByTypeDisjoint(a: AnalysisResult, t: SymbolType, u: SymbolType)
    requires t != u
    ensures forall s :: s in GetSymbolsByType(a, t) ==> s !in GetSymbolsByType(a, u)
  {
  }

  /** `AnalysisResult::get_symbol_by_id`: the first symbol with that id. */
  function GetSymbolById(a: AnalysisResult, id: string): (r: Option<SymbolInfo>)
    ensures r.None? <==> forall k :: 0 <= k < |a.symbols| ==> a.symbols[k].id != id
    ensures r.Some? ==> exists k :: 0 <= k < |a.symbols| && a.symbols[k] == r.value
                          && (forall j :: 0 <= j < k ==> a.symbols[j].id != id)
    ensures r.Some? ==> r.value.id == id
  {
    FindById(a.symbols, id)
  }

  function FindById(ss: seq<SymbolInfo>, id: string): (r: Option<SymbolInfo>)
    ensures r.None? <==> forall k :: 0 <= k < |ss| ==> ss[k].id != id
    ensures r.Some? ==> exists k :: 0 <= k < |ss| && ss[k] == r.value
                          && (forall j :: 0 <= j < k ==> ss[j].id != id)
    ensures r.Some? ==> r.value.id == id
    decreases |ss|
  {
    if |ss| == 0 then None
    else if ss[0].id == id then
      assert ss[0] == ss[0];
      Some(ss[0])
    else
      var r := FindById(ss[1..], id);
      if r.Some? then
        var k :| 0 <= k < |ss[1..]| && ss[1..][k] == r.value && (forall j :: 0 <= j < k ==> ss[1..][j].id != id);
        assert ss[k + 1] == r.value;
        assert forall j :: 0 <= j < k + 1 ==> ss[j].id != id by {
          forall j | 0 <= j < k + 1 ensures ss[j].id != id {
            if j > 0 { assert ss[j] == ss[1..][j - 1]; }
          }
        }
        r
      else
        assert forall k :: 0 <= k < |ss| ==> ss[k].id != id by {
          forall k | 0 <= k < |ss| ensures ss[k].id != id {
            if k > 0 { assert ss[k] == ss[1..][k - 1]; }
          }
        }
        r
  }

  /** `ComplexityRating::from_score`, by score ranges. */
  function FromScore(score: nat): Rating {
    if 0 <= score <= 10 then Simple
    else if 11 <= score <= 20 then Moderate
    else if 21 <= score <= 50 then Complex
    else VeryComplex
  }

  /** The score ranges agree with the thresholds `update_rating` applies. */
  lemma {:induction false} FromScoreAgrees(info: CoreTypes.ComplexityInfo)
    ensures FromScore(info.cyclomatic) == CoreTypes.UpdateRating(info).rating
  {
  }
}
