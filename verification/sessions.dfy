/** The pure parts of the analysis-engine sessions (`src/core/session.rs`):
    combined syntax-tree statistics, the session commands' aggregates, the
    symbol search, include-cycle detection, import resolution and the path
    predicates of file discovery. Sessions are given as their list of
    analysis results; persistence, timestamps and the file system are not
    part of this model. */
module Sessions {
  import opened Wrappers
  import opened Strs
  import opened Seqs
  import opened Langs
  import opened CoreTypes
  import Paths
  import Ast

  // ---------------------------------------------------------------------------
  // Combined syntax-tree statistics
  // ---------------------------------------------------------------------------

  /** The loop of `calculate_combined_ast_stats`: every file that carries
      statistics is merged in (sums, and the larger depth), and the flag
      records that one did. */
  function Combine(acc: Ast.Stats, has: bool, rs: seq<AnalysisResult>): (r: (Ast.Stats, bool))
    ensures r.1 <==> has || exists k :: 0 <= k < |rs| && rs[k].astStatistics.Some?
    decreases |rs|
  {
    if |rs| == 0 then (acc, has)
    else
      assert forall k :: 1 <= k < |rs| ==> rs[k] == rs[1..][k - 1];
      match rs[0].astStatistics
      case Some(s) => Combine(Ast.Merge(acc, s), true, rs[1..])
      case None => Combine(acc, has, rs[1..])
  }

  /** `SessionManager::calculate_combined_ast_stats`: None exactly when no
      file carries statistics. */
  function CombinedAstStats(rs: seq<AnalysisResult>): (r: Option<Ast.Stats>)
    ensures r.None? <==> forall k :: 0 <= k < |rs| ==> rs[k].astStatistics.None?
  {
    var (s, has) := Combine(Ast.EmptyStats, false, rs);
    if has then Some(s) else None
  }

  /** The statistic fields that the combination adds up file by file. */
  datatype Counter = TotalNodes | Classes | Functions | Methods | Variables | ControlStructures

  function CounterOf(s: Ast.Stats, c: Counter): nat {
    match c
    case TotalNodes => s.totalNodes
    case Classes => s.classes
    case Functions => s.functions
    case Methods => s.methods
    case Variables => s.variables
    case ControlStructures => s.controlStructures
  }

  /** One counter of every file, 0 for a file without statistics. */
  function PerFile(rs: seq<AnalysisResult>, c: Counter): (r: seq<nat>)
    ensures |r| == |rs|
    decreases |rs|
  {
    if |rs| == 0 then []
    else [match rs[0].astStatistics case Some(s) => CounterOf(s, c) case None => 0] + PerFile(rs[1..], c)
  }

  /** The tree depth of every file, 0 for a file without statistics. */
  function TreeDepths(rs: seq<AnalysisResult>): (r: seq<nat>)
    ensures |r| == |rs|
    decreases |rs|
  {
    if |rs| == 0 then []
    else [match rs[0].astStatistics case Some(s) => s.maxDepth case None => 0] + TreeDepths(rs[1..])
  }

  /** The per-type counts of all files with statistics, added up. */
  function TypeCountsOf(rs: seq<AnalysisResult>): multiset<string>
    decreases |rs|
  {
    if |rs| == 0 then multiset{}
    else (match rs[0].astStatistics case Some(s) => s.typeCounts case None => multiset{}) + TypeCountsOf(rs[1..])
  }

  function MaxOf(a: nat, b: nat): nat { if a >= b then a else b }

  lemma {:induction false} CombineFields(acc: Ast.Stats, has: bool, rs: seq<AnalysisResult>)
    ensures forall c :: CounterOf(Combine(acc, has, rs).0, c) == CounterOf(acc, c) + Sum(PerFile(rs, c))
    ensures Combine(acc, has, rs).0.maxDepth == MaxOf(acc.maxDepth, Max(TreeDepths(rs)))
    ensures Combine(acc, has, rs).0.typeCounts == acc.typeCounts + TypeCountsOf(rs)
    decreases |rs|
  {
    if |rs| > 0 {
      var tail := rs[1..];
      match rs[0].astStatistics
      case Some(s) =>
        var merged := Ast.Merge(acc, s);
        assert Combine(acc, has, rs) == Combine(merged, true, tail);
        CombineFields(merged, true, tail);
        forall c ensures CounterOf(Combine(acc, has, rs).0, c) == CounterOf(acc, c) + Sum(PerFile(rs, c)) {
          MergeCounter(acc, s, c);
          SumCons(CounterOf(s, c), PerFile(tail, c));
        }
      case None =>
        CombineFields(acc, has, tail);
        forall c ensures CounterOf(Combine(acc, has, rs).0, c) == CounterOf(acc, c) + Sum(PerFile(rs, c)) {
          SumCons(0, PerFile(tail, c));
        }
    }
  }

  lemma {:induction false} MergeCounter(a: Ast.Stats, b: Ast.Stats, c: Counter)
    ensures CounterOf(Ast.Merge(a, b), c) == CounterOf(a, c) + CounterOf(b, c)
  {
  }

  /** The combined statistics add up every count of the files that carry
      statistics: nodes, classes, functions, methods, variables, control
      structures and the per-type counts; the depth is the deepest file's. */
  lemma {:induction false} CombinedAstStatsSpec(rs: seq<AnalysisResult>)
    requires CombinedAstStats(rs).Some?
    ensures CombinedAstStats(rs).value.totalNodes == Sum(PerFile(rs, TotalNodes))
    ensures CombinedAstStats(rs).value.classes == Sum(PerFile(rs, Classes))
    ensures CombinedAstStats(rs).value.functions == Sum(PerFile(rs, Functions))
    ensures CombinedAstStats(rs).value.methods == Sum(PerFile(rs, Methods))
    ensures CombinedAstStats(rs).value.variables == Sum(PerFile(rs, Variables))
    ensures CombinedAstStats(rs).value.controlStructures == Sum(PerFile(rs, ControlStructures))
    ensures CombinedAstStats(rs).value.maxDepth == Max(TreeDepths(rs))
    ensures CombinedAstStats(rs).value.typeCounts == TypeCountsOf(rs)
  {
    var c := CombinedAstStats(rs).value;
    CombinedCounters(rs);
    assert CounterOf(c, TotalNodes) == Sum(PerFile(rs, TotalNodes));
    assert CounterOf(c, Classes) == Sum(PerFile(rs, Classes));
    assert CounterOf(c, Functions) == Sum(PerFile(rs, Functions));
    assert CounterOf(c, Methods) == Sum(PerFile(rs, Methods));
    assert CounterOf(c, Variables) == Sum(PerFile(rs, Variables));
    assert CounterOf(c, ControlStructures) == Sum(PerFile(rs, ControlStructures));
  }

  lemma {:induction false} CombinedCounters(rs: seq<AnalysisResult>)
    requires CombinedAstStats(rs).Some?
    ensures forall k :: CounterOf(CombinedAstStats(rs).value, k) == Sum(PerFile(rs, k))
    ensures CombinedAstStats(rs).value.maxDepth == Max(TreeDepths(rs))
    ensures CombinedAstStats(rs).value.typeCounts == TypeCountsOf(rs)
  {
    var c := Combine(Ast.EmptyStats, false, rs).0;
    assert CombinedAstStats(rs).value == c;
    CombineFields(Ast.EmptyStats, false, rs);
    forall k ensures CounterOf(Ast.EmptyStats, k) == 0 {}
  }

  // ---------------------------------------------------------------------------
  // The "stats" and "complexity" commands
  // ---------------------------------------------------------------------------

  datatype SessionStats = SessionStats(
    totalFiles: nat,
    totalLines: nat,
    totalCodeLines: nat,
    totalFunctions: nat,
    totalClasses: nat,
    languages: multiset<Language>)

  function CodeLineCounts(rs: seq<AnalysisResult>): (r: seq<nat>)
    ensures |r| == |rs|
    decreases |rs|
  {
    if |rs| == 0 then [] else [rs[0].fileInfo.codeLines] + CodeLineCounts(rs[1..])
  }

  function FunctionListSizes(rs: seq<AnalysisResult>): (r: seq<nat>)
    ensures |r| == |rs|
    decreases |rs|
  {
    if |rs| == 0 then [] else [|rs[0].functions|] + FunctionListSizes(rs[1..])
  }

  function ClassListSizes(rs: seq<AnalysisResult>): (r: seq<nat>)
    ensures |r| == |rs|
    decreases |rs|
  {
    if |rs| == 0 then [] else [|rs[0].classes|] + ClassListSizes(rs[1..])
  }

  function LanguagesOf(rs: seq<AnalysisResult>): (r: seq<Language>)
    ensures |r| == |rs| && forall k :: 0 <= k < |rs| ==> r[k] == rs[k].language
  {
    seq(|rs|, k requires 0 <= k < |rs| => rs[k].language)
  }

  /** The integer part of `calculate_session_stats`: one file per result,
      summed line, function and class counts, and a per-language count
      (kept as a multiset) that counts every file once under its language. */
  function SessionStatsOf(rs: seq<AnalysisResult>): SessionStats
    decreases |rs|
  {
    if |rs| == 0 then SessionStats(0, 0, 0, 0, 0, multiset{})
    else
      var rest := SessionStatsOf(rs[1..]);
      SessionStats(
        rest.totalFiles + 1,
        rs[0].fileInfo.totalLines + rest.totalLines,
        rs[0].fileInfo.codeLines + rest.totalCodeLines,
        |rs[0].functions| + rest.totalFunctions,
        |rs[0].classes| + rest.totalClasses,
        multiset{rs[0].language} + rest.languages)
  }

  /** Each total is the sum of the per-file values, and the language count
      holds every file once under its language. */
  lemma {:induction false} SessionStatsSpec(rs: seq<AnalysisResult>)
    ensures SessionStatsOf(rs).totalFiles == |rs| && |SessionStatsOf(rs).languages| == |rs|
    ensures SessionStatsOf(rs).totalLines == Sum(LineCounts(rs))
    ensures SessionStatsOf(rs).totalCodeLines == Sum(CodeLineCounts(rs))
    ensures SessionStatsOf(rs).totalFunctions == Sum(FunctionListSizes(rs))
    ensures SessionStatsOf(rs).totalClasses == Sum(ClassListSizes(rs))
    ensures SessionStatsOf(rs).languages == multiset(LanguagesOf(rs))
  {
    StatsLanguages(rs);
    StatsSums(rs);
  }

  lemma {:induction false} StatsLanguages(rs: seq<AnalysisResult>)
    ensures SessionStatsOf(rs).totalFiles == |rs|
    ensures SessionStatsOf(rs).languages == multiset(LanguagesOf(rs))
    decreases |rs|
  {
    if |rs| > 0 {
      StatsLanguages(rs[1..]);
      LanguagesOfCons(rs);
    }
  }

  lemma {:induction false} LanguagesOfCons(rs: seq<AnalysisResult>)
    requires |rs| > 0
    ensures LanguagesOf(rs) == [rs[0].language] + LanguagesOf(rs[1..])
  {
  }

  lemma {:induction false} StatsSums(rs: seq<AnalysisResult>)
    ensures SessionStatsOf(rs).totalLines == Sum(LineCounts(rs))
    ensures SessionStatsOf(rs).totalCodeLines == Sum(CodeLineCounts(rs))
    ensures SessionStatsOf(rs).totalFunctions == Sum(FunctionListSizes(rs))
    ensures SessionStatsOf(rs).totalClasses == Sum(ClassListSizes(rs))
    decreases |rs|
  {
    if |rs| > 0 {
      var r0, tail := rs[0], rs[1..];
      StatsSums(tail);
      LineCountsCons(rs);
      SumCons(r0.fileInfo.totalLines, LineCounts(tail));
      SumCons(r0.fileInfo.codeLines, CodeLineCounts(tail));
      SumCons(|r0.functions|, FunctionListSizes(tail));
      SumCons(|r0.classes|, ClassListSizes(tail));
    }
  }

  lemma {:induction false} LineCountsCons(rs: seq<AnalysisResult>)
    requires |rs| > 0
    ensures LineCounts(rs) == [rs[0].fileInfo.totalLines] + LineCounts(rs[1..])
  {
  }

  /** The bucket of `calculate_session_complexity` a function falls in. */
  datatype Bucket = Low | Medium | High | VeryHigh

  function BucketOf(c: nat): (b: Bucket)
    ensures b == Low <==> 1 <= c <= 5
    ensures b == Medium <==> 6 <= c <= 10
    ensures b == High <==> 11 <= c <= 20
  {
    if 1 <= c <= 5 then Low else if 6 <= c <= 10 then Medium else if 11 <= c <= 20 then High else VeryHigh
  }

  /** The complexity every function of a file is given: one plus the file's
      control structures shared out evenly (integer division) among its
      functions. */
  function FunctionComplexity(r: AnalysisResult): (c: nat)
    ensures c >= 1
  {
    1 + match r.astStatistics
        case Some(s) => s.controlStructures / (if |r.functions| >= 1 then |r.functions| else 1)
        case None => 0
  }

  function Copies(b: Bucket, n: nat): (m: multiset<Bucket>)
    ensures |m| == n && m[b] == n && forall x :: x != b ==> m[x] == 0
  {
    if n == 0 then multiset{} else Copies(b, n - 1) + multiset{b}
  }

  /** What each file adds to the total complexity: its function count times
      the complexity every one of its functions is given. */
  function FileComplexities(rs: seq<AnalysisResult>): (r: seq<nat>)
    ensures |r| == |rs|
    ensures forall i :: 0 <= i < |rs| ==> r[i] == |rs[i].functions| * FunctionComplexity(rs[i])
    decreases |rs|
  {
    if |rs| == 0 then []
    else
      assert forall i :: 1 <= i < |rs| ==> rs[i] == rs[1..][i - 1];
      [|rs[0].functions| * FunctionComplexity(rs[0])] + FileComplexities(rs[1..])
  }

  /** How many functions each file puts in bucket `b`: all of them when the
      file's function complexity falls in it, none otherwise. */
  function BucketSizes(rs: seq<AnalysisResult>, b: Bucket): (r: seq<nat>)
    ensures |r| == |rs|
    ensures forall i :: 0 <= i < |rs| ==>
              r[i] == if BucketOf(FunctionComplexity(rs[i])) == b then |rs[i].functions| else 0
    decreases |rs|
  {
    if |rs| == 0 then []
    else
      assert forall i :: 1 <= i < |rs| ==> rs[i] == rs[1..][i - 1];
      [if BucketOf(FunctionComplexity(rs[0])) == b then |rs[0].functions| else 0] + BucketSizes(rs[1..], b)
  }

  datatype ComplexityReport = ComplexityReport(
    totalComplexity: nat,
    totalFunctions: nat,
    distribution: multiset<Bucket>)

  /** The integer part of `calculate_session_complexity`: every function of a
      file is given that file's FunctionComplexity, the total complexity adds
      up the functions' complexities, and the distribution counts each
      function in the bucket of its complexity. The contract bounds the total
      by the function count and the control structures; SessionComplexitySpec
      states the exact total and bucket counts. */
  function SessionComplexity(rs: seq<AnalysisResult>): (r: ComplexityReport)
    ensures r.totalFunctions == Sum(FunctionListSizes(rs)) == |r.distribution|
    ensures r.totalFunctions <= r.totalComplexity <= r.totalFunctions + Sum(PerFile(rs, ControlStructures))
    decreases |rs|
  {
    if |rs| == 0 then ComplexityReport(0, 0, multiset{})
    else
      var rest := SessionComplexity(rs[1..]);
      var n := |rs[0].functions|;
      var c := FunctionComplexity(rs[0]);
      ShareBound(rs[0]);
      ComplexityReport(n * c + rest.totalComplexity, n + rest.totalFunctions,
                       Copies(BucketOf(c), n) + rest.distribution)
  }

  /** Every function of a file is given the file's function complexity and is
      counted in that complexity's bucket: the total adds up each file's
      function count times its function complexity, and each bucket holds
      the functions of exactly the files whose complexity falls in it. */
  lemma {:induction false} SessionComplexitySpec(rs: seq<AnalysisResult>)
    ensures SessionComplexity(rs).totalComplexity == Sum(FileComplexities(rs))
    ensures forall b :: SessionComplexity(rs).distribution[b] == Sum(BucketSizes(rs, b))
  {
    SessionTotal(rs);
    forall b ensures SessionComplexity(rs).distribution[b] == Sum(BucketSizes(rs, b)) {
      SessionBucket(rs, b);
    }
  }

  lemma {:induction false} SessionTotal(rs: seq<AnalysisResult>)
    ensures SessionComplexity(rs).totalComplexity == Sum(FileComplexities(rs))
    decreases |rs|
  {
    if |rs| > 0 {
      var tail := rs[1..];
      var x := FileComplexities(rs)[0];
      assert FileComplexities(rs) == [x] + FileComplexities(tail);
      assert SessionComplexity(rs).totalComplexity == x + SessionComplexity(tail).totalComplexity;
      SessionTotal(tail);
      SumCons(x, FileComplexities(tail));
    }
  }

  lemma {:induction false} SessionBucket(rs: seq<AnalysisResult>, b: Bucket)
    ensures SessionComplexity(rs).distribution[b] == Sum(BucketSizes(rs, b))
    decreases |rs|
  {
    if |rs| > 0 {
      var tail := rs[1..];
      var n: nat, c: nat := |rs[0].functions|, FunctionComplexity(rs[0]);
      SessionBucket(tail, b);
      SumCons(if BucketOf(c) == b then n else 0, BucketSizes(tail, b));
    }
  }

  lemma {:induction false} ShareBound(r: AnalysisResult)
    ensures |r.functions| <= |r.functions| * FunctionComplexity(r)
    ensures |r.functions| * FunctionComplexity(r)
            <= |r.functions| + match r.astStatistics case Some(s) => s.controlStructures case None => 0
  {
    var n := |r.functions|;
    if r.astStatistics.Some? && n >= 1 {
      var cs := r.astStatistics.value.controlStructures;
      assert FunctionComplexity(r) == 1 + cs / n;
      DivMulBound(cs, n);
      assert n * (1 + cs / n) == n + n * (cs / n);
    }
  }

  lemma {:induction false} DivMulBound(a: nat, n: nat)
    requires n >= 1
    ensures n * (a / n) <= a
  {
    assert a == n * (a / n) + a % n;
  }

  // ---------------------------------------------------------------------------
  // Symbol search
  // ---------------------------------------------------------------------------

  datatype SymbolMatch =
    | ClassMatch(name: string, file: string, lineStart: nat, lineEnd: nat)
    | FunctionMatch(name: string, file: string, lineStart: nat, lineEnd: nat, parameters: seq<string>)
    | NodeMatch(name: string, nodeType: Ast.NodeType, file: string, lineStart: nat, lineEnd: nat, scopePath: string)

  /** A name matches a lowercased term when its lowercase form contains it. */
  predicate NameHit(name: string, termLower: string) {
    Contains(Lower(name), termLower)
  }

  function NodeHit(termLower: string): Ast.Node -> bool {
    (n: Ast.Node) => n.name != "" && NameHit(n.name, termLower)
  }

  /** `search_ast_nodes`: the node when it has a matching non-empty name,
      then the matches of each child subtree. */
  function SearchAstNodes(n: Ast.Node, termLower: string): seq<Ast.Node>
    decreases n, 1
  {
    (if n.name != "" && NameHit(n.name, termLower) then [n] else []) + SearchAll(n.children, termLower)
  }

  function SearchAll(cs: seq<Ast.Node>, termLower: string): seq<Ast.Node>
    decreases cs, 0
  {
    if |cs| == 0 then [] else SearchAstNodes(cs[0], termLower) + SearchAll(cs[1..], termLower)
  }

  lemma {:induction false} SearchIsFilter(n: Ast.Node, termLower: string)
    ensures SearchAstNodes(n, termLower) == Filter(NodeHit(termLower), Ast.PreOrder(n))
    decreases n, 1
  {
    SearchAllIsFilter(n.children, termLower);
    FilterAppend(NodeHit(termLower), [n], Ast.PreOrderAll(n.children));
  }

  lemma {:induction false} SearchAllIsFilter(cs: seq<Ast.Node>, termLower: string)
    ensures SearchAll(cs, termLower) == Filter(NodeHit(termLower), Ast.PreOrderAll(cs))
    decreases cs, 0
  {
    if |cs| > 0 {
      SearchIsFilter(cs[0], termLower);
      SearchAllIsFilter(cs[1..], termLower);
      FilterAppend(NodeHit(termLower), Ast.PreOrder(cs[0]), Ast.PreOrderAll(cs[1..]));
    }
  }

  /** The tree nodes found are exactly the nodes of the tree, in pre-order,
      whose name is non-empty and contains the term. */
  lemma {:induction false} SearchSpec(n: Ast.Node, termLower: string)
    ensures IsFilterOf(SearchAstNodes(n, termLower), Ast.PreOrder(n), NodeHit(termLower))
  {
    SearchIsFilter(n, termLower);
    FilterIsFilterOf(NodeHit(termLower), Ast.PreOrder(n));
  }

  function ClassMatches(cs: seq<ClassInfo>, file: string, termLower: string): (r: seq<SymbolMatch>)
    ensures |r| <= |cs|
    ensures forall k :: 0 <= k < |r| ==> r[k].ClassMatch? && NameHit(r[k].name, termLower)
    decreases |cs|
  {
    if |cs| == 0 then []
    else
      (if NameHit(cs[0].name, termLower)
       then [ClassMatch(cs[0].name, file, cs[0].startLine, cs[0].endLine)] else [])
      + ClassMatches(cs[1..], file, termLower)
  }

  function FunctionMatches(fs: seq<FunctionInfo>, file: string, termLower: string): (r: seq<SymbolMatch>)
    ensures |r| <= |fs|
    ensures forall k :: 0 <= k < |r| ==> r[k].FunctionMatch? && NameHit(r[k].name, termLower)
    decreases |fs|
  {
    if |fs| == 0 then []
    else
      (if NameHit(fs[0].name, termLower)
       then [FunctionMatch(fs[0].name, file, fs[0].startLine, fs[0].endLine, fs[0].parameters)] else [])
      + FunctionMatches(fs[1..], file, termLower)
  }

  function NodeMatches(ns: seq<Ast.Node>, file: string): (r: seq<SymbolMatch>)
    ensures |r| == |ns|
    ensures forall k :: 0 <= k < |r| ==> r[k].NodeMatch? && r[k].name == if ns[k].name == "" then "anonymous" else ns[k].name
    decreases |ns|
  {
    if |ns| == 0 then []
    else
      var n := ns[0];
      [NodeMatch(if n.name == "" then "anonymous" else n.name, n.nodeType, file, n.startLine, n.endLine, n.scopePath)]
      + NodeMatches(ns[1..], file)
  }

  /** The matches of one file: classes, then functions, then tree nodes. */
  function FileMatches(r: AnalysisResult, termLower: string): seq<SymbolMatch> {
    var file := r.fileInfo.path;
    ClassMatches(r.classes, file, termLower) + FunctionMatches(r.functions, file, termLower)
    + match r.astRoot
      case Some(root) => NodeMatches(SearchAstNodes(root, termLower), file)
      case None => []
  }

  function AllMatches(rs: seq<AnalysisResult>, termLower: string): seq<SymbolMatch>
    decreases |rs|
  {
    if |rs| == 0 then [] else FileMatches(rs[0], termLower) + AllMatches(rs[1..], termLower)
  }

  datatype SearchResult = SearchResult(searchTerm: string, totalMatches: nat, matches: seq<SymbolMatch>)

  /** `find_session_symbols`: the term is lowercased once, the matches are
      those of each file in turn (see `FileMatchesSpec`), and the reported
      total is the number of matches. */
  function FindSessionSymbols(rs: seq<AnalysisResult>, term: string): (r: SearchResult)
    ensures r.searchTerm == term && r.totalMatches == |r.matches|
    ensures r.matches == AllMatches(rs, Lower(term))
  {
    var ms := AllMatches(rs, Lower(term));
    SearchResult(term, |ms|, ms)
  }

  /** The class, function and node tests of the search, and the match
      records built from each kind of item. */
  function ClassHit(termLower: string): ClassInfo -> bool {
    (c: ClassInfo) => NameHit(c.name, termLower)
  }

  function FunctionHit(termLower: string): FunctionInfo -> bool {
    (f: FunctionInfo) => NameHit(f.name, termLower)
  }

  function AsClassMatch(file: string): ClassInfo -> SymbolMatch {
    (c: ClassInfo) => ClassMatch(c.name, file, c.startLine, c.endLine)
  }

  function AsFunctionMatch(file: string): FunctionInfo -> SymbolMatch {
    (f: FunctionInfo) => FunctionMatch(f.name, file, f.startLine, f.endLine, f.parameters)
  }

  function AsNodeMatch(file: string): Ast.Node -> SymbolMatch {
    (n: Ast.Node) => NodeMatch(if n.name == "" then "anonymous" else n.name, n.nodeType, file, n.startLine, n.endLine, n.scopePath)
  }

  lemma {:induction false} ClassMatchesAreFilter(cs: seq<ClassInfo>, file: string, t: string)
    ensures ClassMatches(cs, file, t) == MapSeq(AsClassMatch(file), Filter(ClassHit(t), cs))
    decreases |cs|
  {
    if |cs| > 0 {
      ClassMatchesAreFilter(cs[1..], file, t);
      var rest := Filter(ClassHit(t), cs[1..]);
      if ClassHit(t)(cs[0]) {
        assert ([cs[0]] + rest)[1..] == rest;
      }
    }
  }

  lemma {:induction false} FunctionMatchesAreFilter(fs: seq<FunctionInfo>, file: string, t: string)
    ensures FunctionMatches(fs, file, t) == MapSeq(AsFunctionMatch(file), Filter(FunctionHit(t), fs))
    decreases |fs|
  {
    if |fs| > 0 {
      FunctionMatchesAreFilter(fs[1..], file, t);
      var rest := Filter(FunctionHit(t), fs[1..]);
      if FunctionHit(t)(fs[0]) {
        assert ([fs[0]] + rest)[1..] == rest;
      }
    }
  }

  lemma {:induction false} NodeMatchesAreMap(ns: seq<Ast.Node>, file: string)
    ensures NodeMatches(ns, file) == MapSeq(AsNodeMatch(file), ns)
    decreases |ns|
  {
    if |ns| > 0 {
      NodeMatchesAreMap(ns[1..], file);
    }
  }

  /** The matches of one file are: every class whose name contains the term
      ignoring ASCII case, in order; then every such function, in order; then
      every tree node with a non-empty such name, in pre-order. */
  lemma {:induction false} FileMatchesSpec(r: AnalysisResult, t: string)
    ensures var file := r.fileInfo.path;
            FileMatches(r, t)
              == MapSeq(AsClassMatch(file), Filter(ClassHit(t), r.classes))
                 + MapSeq(AsFunctionMatch(file), Filter(FunctionHit(t), r.functions))
                 + match r.astRoot
                   case Some(root) => MapSeq(AsNodeMatch(file), Filter(NodeHit(t), Ast.PreOrder(root)))
                   case None => []
  {
    var file := r.fileInfo.path;
    ClassMatchesAreFilter(r.classes, file, t);
    FunctionMatchesAreFilter(r.functions, file, t);
    if r.astRoot.Some? {
      var root := r.astRoot.value;
      SearchIsFilter(root, t);
      NodeMatchesAreMap(SearchAstNodes(root, t), file);
    }
  }

  lemma {:induction false} FileMatchesContainTerm(r: AnalysisResult, t: string)
    ensures forall k :: 0 <= k < |FileMatches(r, t)| ==> NameHit(FileMatches(r, t)[k].name, t)
  {
    var head := ClassMatches(r.classes, r.fileInfo.path, t) + FunctionMatches(r.functions, r.fileInfo.path, t);
    assert forall k :: 0 <= k < |head| ==> NameHit(head[k].name, t);
    match r.astRoot {
      case None =>
        assert FileMatches(r, t) == head;
      case Some(root) =>
        var found := SearchAstNodes(root, t);
        SearchSpec(root, t);
        var nodes := NodeMatches(found, r.fileInfo.path);
        assert forall k :: 0 <= k < |nodes| ==> NameHit(nodes[k].name, t) by {
          forall k | 0 <= k < |nodes| ensures NameHit(nodes[k].name, t) {
            assert NodeHit(t)(found[k]);
          }
        }
        assert FileMatches(r, t) == head + nodes;
    }
  }

  /** Every match of the search carries a name that contains the term,
      ignoring ASCII case; tree nodes never show up as "anonymous", because
      only named nodes can match. */
  lemma {:induction false} MatchesContainTerm(rs: seq<AnalysisResult>, t: string)
    ensures forall k :: 0 <= k < |AllMatches(rs, t)| ==> NameHit(AllMatches(rs, t)[k].name, t)
    decreases |rs|
  {
    if |rs| > 0 {
      MatchesContainTerm(rs[1..], t);
      FileMatchesContainTerm(rs[0], t);
      var head := FileMatches(rs[0], t);
      var tail := AllMatches(rs[1..], t);
      assert AllMatches(rs, t) == head + tail;
      assert forall k :: |head| <= k < |head| + |tail| ==> (head + tail)[k] == tail[k - |head|];
    }
  }

  // ---------------------------------------------------------------------------
  // Include cycles
  // ---------------------------------------------------------------------------

  /** The dependency graph: file to the resolved paths it imports. */
  type Graph = map<string, seq<string>>

  /** Every file the graph mentions, as a key or as a dependency. */
  function Universe(g: Graph): set<string> {
    g.Keys + set a, k | a in g && 0 <= k < |g[a]| :: g[a][k]
  }

  /** A walk along dependency edges. */
  predicate IsPath(g: Graph, p: seq<string>) {
    |p| >= 1 && forall i :: 0 <= i < |p| - 1 ==> p[i] in g && p[i + 1] in g[p[i]]
  }

  ghost predicate Reach(g: Graph, a: string, b: string) {
    exists p :: IsPath(g, p) && p[0] == a && p[|p| - 1] == b
  }

  /** No walk of at least one edge returns to where it started. */
  ghost predicate Acyclic(g: Graph) {
    forall p :: IsPath(g, p) && |p| >= 2 ==> p[0] != p[|p| - 1]
  }

  lemma {:induction false} ReachSelf(g: Graph, a: string)
    ensures Reach(g, a, a)
  {
    assert IsPath(g, [a]);
  }

  lemma {:induction false} ReachStep(g: Graph, a: string, b: string, c: string)
    requires Reach(g, a, b) && b in g && c in g[b]
    ensures Reach(g, a, c)
  {
    var p :| IsPath(g, p) && p[0] == a && p[|p| - 1] == b;
    var q := p + [c];
    assert IsPath(g, q) by {
      forall i | 0 <= i < |q| - 1 ensures q[i] in g && q[i + 1] in g[q[i]] {
        if i < |p| - 1 {
          assert q[i] == p[i] && q[i + 1] == p[i + 1];
        }
      }
    }
  }

  datatype DfsResult = DfsResult(cycle: Option<seq<string>>, visited: set<string>, stack: set<string>)

  /** What a reported pair `[a, b]` satisfies: `b` is a dependency of `a`,
      and `b` was on the recursion stack, either left over from an earlier
      search (`stale`) or an ancestor of `a` in this one. */
  ghost predicate CycleEvidence(g: Graph, c: seq<string>, stale: set<string>) {
    |c| == 2 && c[0] in g && c[1] in g[c[0]] && (c[1] in stale || Reach(g, c[1], c[0]))
  }

  /** `detect_cycle_dfs`: marks the file visited and stacked, searches its
      dependencies in order, and reports `[file, dep]` for the first
      dependency already on the stack. On an early return the stack is left
      as it is; otherwise the file is taken off it again. */
  function Dfs(g: Graph, file: string, visited: set<string>, stack: set<string>, ghost stale: set<string>)
    : (r: DfsResult)
    requires file in Universe(g) && file !in visited
    requires visited <= Universe(g) && stack <= visited
    requires forall s :: s in stack ==> s in stale || Reach(g, s, file)
    ensures visited + {file} <= r.visited <= Universe(g)
    ensures r.stack <= r.visited
    ensures r.cycle.None? ==> r.stack == stack
    ensures r.cycle.Some? ==> CycleEvidence(g, r.cycle.value, stale)
    ensures r.cycle.Some? ==> r.cycle.value[0] in r.stack && r.cycle.value[1] in r.stack
    decreases Universe(g) - visited, 0, 0
  {
    ReachSelf(g, file);
    if file in g then
      var res := DfsLoop(g, file, 0, visited + {file}, stack + {file}, stale);
      if res.cycle.Some? then res else DfsResult(None, res.visited, res.stack - {file})
    else DfsResult(None, visited + {file}, stack)
  }

  /** The loop over the dependencies of `file`, from index `i` on. */
  function DfsLoop(g: Graph, file: string, i: nat, visited: set<string>, stack: set<string>, ghost stale: set<string>)
    : (r: DfsResult)
    requires file in g && i <= |g[file]|
    requires visited <= Universe(g) && stack <= visited && file in stack
    requires forall s :: s in stack ==> s in stale || Reach(g, s, file)
    ensures visited <= r.visited <= Universe(g)
    ensures r.stack <= r.visited
    ensures r.cycle.None? ==> r.stack == stack
    ensures r.cycle.Some? ==> CycleEvidence(g, r.cycle.value, stale)
    ensures r.cycle.Some? ==> r.cycle.value[0] in r.stack && r.cycle.value[1] in r.stack
    decreases Universe(g) - visited, 1, |g[file]| - i
  {
    if i == |g[file]| then DfsResult(None, visited, stack)
    else
      var dep := g[file][i];
      assert dep in Universe(g);
      if dep !in visited then
        DfsStep(g, file, dep, stack, stale);
        var sub := Dfs(g, dep, visited, stack, stale);
        if sub.cycle.Some? then sub
        else DfsLoop(g, file, i + 1, sub.visited, sub.stack, stale)
      else if dep in stack then
        assert dep in stale || Reach(g, dep, file);
        DfsResult(Some([file, dep]), visited, stack)
      else DfsLoop(g, file, i + 1, visited, stack, stale)
  }

  lemma {:induction false} DfsStep(g: Graph, file: string, dep: string, stack: set<string>, stale: set<string>)
    requires file in g && dep in g[file]
    requires forall s :: s in stack ==> s in stale || Reach(g, s, file)
    ensures forall s :: s in stack ==> s in stale || Reach(g, s, dep)
  {
    forall s | s in stack && s !in stale ensures Reach(g, s, dep) {
      ReachStep(g, s, file, dep);
    }
  }

  /** The outer loop of `find_session_include_cycles` as written: each file
      of `order` (the map's key order) not yet visited starts a search, with
      whatever the earlier searches left on the stack. */
  function FindCycles(g: Graph, order: seq<string>, visited: set<string>, stack: set<string>)
    : (r: seq<seq<string>>)
    requires forall k :: 0 <= k < |order| ==> order[k] in g
    requires visited <= Universe(g) && stack <= visited
    ensures stack == {} && Acyclic(g) ==> r == []
    decreases |order|
  {
    if |order| == 0 then []
    else if order[0] in visited then FindCycles(g, order[1..], visited, stack)
    else
      var res := Dfs(g, order[0], visited, stack, stack);
      FreshEvidenceIsCycle(g, res, stack);
      match res.cycle
      case Some(c) => [c] + FindCycles(g, order[1..], res.visited, res.stack)
      case None => FindCycles(g, order[1..], res.visited, res.stack)
  }

  /** Evidence found with an empty stale set is a closed walk. */
  lemma {:induction false} FreshEvidenceIsCycle(g: Graph, res: DfsResult, stale: set<string>)
    ensures stale == {} && res.cycle.Some? && CycleEvidence(g, res.cycle.value, stale) ==> !Acyclic(g)
  {
    if stale == {} && res.cycle.Some? && CycleEvidence(g, res.cycle.value, stale) {
      var c := res.cycle.value;
      var p :| IsPath(g, p) && p[0] == c[1] && p[|p| - 1] == c[0];
      var q := p + [c[1]];
      assert IsPath(g, q) by {
        forall i | 0 <= i < |q| - 1 ensures q[i] in g && q[i + 1] in g[q[i]] {
          if i < |p| - 1 {
            assert q[i] == p[i] && q[i + 1] == p[i + 1];
          }
        }
      }
      assert |q| >= 2 && q[0] == q[|q| - 1];
    }
  }

  /** `find_session_include_cycles` as written, for one key order. */
  function IncludeCycles(g: Graph, order: seq<string>): (r: seq<seq<string>>)
    requires forall k :: 0 <= k < |order| ==> order[k] in g
    ensures Acyclic(g) ==> r == []
  {
    FindCycles(g, order, {}, {})
  }

  /** A key order of the graph in the counterexample below. */
  const StaleGraph: Graph := map["A" := ["B"], "B" := ["A"], "C" := ["B"]]

  /** After the cycle between A and B is reported, A and B stay on the stack,
      so the search from C reports the pair [C, B] although no walk leads
      from B back to C: C lies on no cycle. */
  lemma {:induction false} StaleStackReportsNonCycle()
    ensures IncludeCycles(StaleGraph, ["A", "B", "C"]) == [["B", "A"], ["C", "B"]]
    ensures !Reach(StaleGraph, "B", "C")
  {
    var g := StaleGraph;
    var none: set<string> := {};
    var ab: set<string> := {"A", "B"};
    StaleUniverse();
    StaleFirstSearch();
    StaleThirdSearch();
    assert FindCycles(g, ["C"], ab, ab) == [["C", "B"]];
    assert FindCycles(g, ["B", "C"], ab, ab) == [["C", "B"]];
    assert FindCycles(g, ["A", "B", "C"], none, none) == [["B", "A"]] + [["C", "B"]];
    NotReachC(g);
  }

  lemma {:induction false} StaleUniverse()
    ensures Universe(StaleGraph) == {"A", "B", "C"}
  {
    var g := StaleGraph;
    assert g["A"][0] == "B" && g["B"][0] == "A" && g["C"][0] == "B";
  }

  /** The search from A descends into B, whose dependency A is on the
      stack: the cycle [B, A] is reported and A and B stay on the stack. */
  lemma {:induction false} StaleFirstSearch()
    ensures Dfs(StaleGraph, "A", {}, {}, {}) == DfsResult(Some(["B", "A"]), {"A", "B"}, {"A", "B"})
  {
    var g := StaleGraph;
    var none: set<string> := {};
    var a: set<string> := {"A"};
    var ab: set<string> := {"A", "B"};
    assert none + {"A"} == a && a + {"B"} == ab;
    StaleUniverse();
    ReachSelf(g, "A");
    ReachSelf(g, "B");
    ReachStep(g, "A", "A", "B");
    var inner := DfsResult(Some(["B", "A"]), ab, ab);
    assert DfsLoop(g, "B", 0, ab, ab, none) == inner;
    assert Dfs(g, "B", a, a, none) == inner;
    assert DfsLoop(g, "A", 0, a, a, none) == inner;
  }

  /** B is visited; the search from C finds B still on the stack. */
  lemma {:induction false} StaleThirdSearch()
    ensures Dfs(StaleGraph, "C", {"A", "B"}, {"A", "B"}, {"A", "B"})
            == DfsResult(Some(["C", "B"]), {"A", "B", "C"}, {"A", "B", "C"})
  {
    var g := StaleGraph;
    var ab: set<string> := {"A", "B"};
    var abc: set<string> := {"A", "B", "C"};
    assert ab + {"C"} == abc;
    StaleUniverse();
    ReachSelf(g, "C");
    var third := DfsResult(Some(["C", "B"]), abc, abc);
    assert DfsLoop(g, "C", 0, abc, abc, ab) == third;
  }

  /** Walks from A or B never leave {A, B}. */
  lemma {:induction false} WalkStaysInCycle(p: seq<string>, i: nat)
    requires IsPath(StaleGraph, p) && p[0] in {"A", "B"} && i < |p|
    ensures p[i] in {"A", "B"}
    decreases i
  {
    if i > 0 {
      WalkStaysInCycle(p, i - 1);
      assert p[i] in StaleGraph[p[i - 1]];
    }
  }

  lemma {:induction false} NotReachC(g: Graph)
    requires g == StaleGraph
    ensures !Reach(g, "B", "C")
  {
    forall p | IsPath(g, p) && p[0] == "B" ensures p[|p| - 1] != "C" {
      WalkStaysInCycle(p, |p| - 1);
    }
  }

  /** The search with the stack cleared before each outer start, as a
      recursion stack is meant to be. */
  function FindCyclesFixed(g: Graph, order: seq<string>, visited: set<string>): (r: seq<seq<string>>)
    requires forall k :: 0 <= k < |order| ==> order[k] in g
    requires visited <= Universe(g)
    ensures forall k :: 0 <= k < |r| ==> CycleEvidence(g, r[k], {})
    decreases |order|
  {
    if |order| == 0 then []
    else if order[0] in visited then FindCyclesFixed(g, order[1..], visited)
    else
      var res := Dfs(g, order[0], visited, {}, {});
      match res.cycle
      case Some(c) => [c] + FindCyclesFixed(g, order[1..], res.visited)
      case None => FindCyclesFixed(g, order[1..], res.visited)
  }

  /** With a fresh stack, every reported pair `[a, b]` closes a real cycle:
      `b` depends-on-reaches `a`, and `a` depends directly on `b`. */
  lemma {:induction false} FixedReportsCycles(g: Graph, order: seq<string>)
    requires forall k :: 0 <= k < |order| ==> order[k] in g
    ensures forall c :: c in FindCyclesFixed(g, order, {}) ==>
              |c| == 2 && c[0] in g && c[1] in g[c[0]] && Reach(g, c[1], c[0])
  {
    var r := FindCyclesFixed(g, order, {});
    forall c | c in r ensures |c| == 2 && c[0] in g && c[1] in g[c[0]] && Reach(g, c[1], c[0]) {
      var k :| 0 <= k < |r| && r[k] == c;
      assert CycleEvidence(g, r[k], {});
    }
  }

  // ---------------------------------------------------------------------------
  // Import resolution
  // ---------------------------------------------------------------------------

  /** `PathBuf::join` on text: an absolute path replaces the base, otherwise
      the two are put together with one separator. */
  function JoinPath(base: string, p: string): (r: string)
    ensures StartsWith(p, "/") ==> r == p
    ensures EndsWith(r, p)
  {
    if StartsWith(p, "/") then p
    else if base == "" || EndsWith(base, "/") then base + p
    else base + "/" + p
  }

  /** `str::trim_start_matches` for one character. */
  function TrimStartChar(s: string, c: char): (r: string)
    ensures |r| == 0 || r[0] != c
    ensures EndsWith(s, r)
    decreases |s|
  {
    if |s| > 0 && s[0] == c then
      var r := TrimStartChar(s[1..], c);
      assert s[1..][|s| - 1 - |r|..] == s[|s| - |r|..];
      r
    else s
  }

  /** `str::trim_end_matches` for one character. */
  function TrimEndChar(s: string, c: char): (r: string)
    ensures |r| == 0 || r[|r| - 1] != c
    ensures StartsWith(s, r)
    decreases |s|
  {
    if |s| > 0 && s[|s| - 1] == c then
      var r := TrimEndChar(s[..|s| - 1], c);
      assert s[..|s| - 1][..|r|] == s[..|r|];
      r
    else s
  }

  /** What the file system is asked while resolving: whether a path exists,
      and the canonical form a relative script import probes to (the path
      itself, with a script extension, or an index file below it). */
  datatype FileSystem = FileSystem(exists_: string -> bool, probe: string -> Option<string>)

  predicate IsRelative(p: string) { StartsWith(p, "./") || StartsWith(p, "../") }

  /** `resolve_import_path`. `parent` is the text of the importing file's
      parent directory, None when it has none. */
  function ResolveImport(importPath: string, parent: Option<string>, language: Language, fs: FileSystem)
    : (r: Option<string>)
    ensures r.Some? ==> parent.Some?
    ensures (language == C || language == Cpp) && StartsWith(Trim(importPath), "<") ==> r.None?
    ensures language == Go ==> (r.Some? <==> IsRelative(Trim(importPath)) && parent.Some?)
    ensures language in {JavaScript, TypeScript} ==> (r.Some? <==> IsRelative(Trim(importPath)) && parent.Some?)
    ensures language in {Unknown} ==> r.None?
  {
    var clean := Trim(importPath);
    match parent
    case None => None
    case Some(dir) =>
      match language
      case JavaScript =>
        if IsRelative(clean) then
          var resolved := JoinPath(dir, clean);
          Some(match fs.probe(resolved) case Some(c) => c case None => resolved)
        else None
      case TypeScript =>
        if IsRelative(clean) then
          var resolved := JoinPath(dir, clean);
          Some(match fs.probe(resolved) case Some(c) => c case None => resolved)
        else None
      case Python =>
        if StartsWith(clean, ".") then
          Some(JoinPath(dir, Replace(TrimStartChar(clean, '.'), ".", "/") + ".py"))
        else
          var candidate := JoinPath(dir, Replace(clean, ".", "/") + ".py");
          if fs.exists_(candidate) then Some(candidate) else None
      case C => IncludePath(clean, dir)
      case Cpp => IncludePath(clean, dir)
      case CSharp =>
        if Contains(clean, ".") && !StartsWith(clean, "System") then
          var candidate := JoinPath(dir, Replace(clean, ".", "/") + ".cs");
          if fs.exists_(candidate) then Some(candidate) else None
        else None
      case Go =>
        if IsRelative(clean) then Some(JoinPath(dir, clean)) else None
      case Rust =>
        if StartsWith(clean, "crate::") || StartsWith(clean, "super::") then
          var modulePath := Replace(Replace(Replace(clean, "::", "/"), "crate/", ""), "super/", "../");
          var candidate := JoinPath(dir, modulePath + ".rs");
          if fs.exists_(candidate) then Some(candidate) else None
        else None
      case Unknown => None
  }

  /** The C and C++ branch: a quoted include is resolved without its quotes,
      an angle-bracket include is skipped, anything else is taken as a
      path. */
  function IncludePath(clean: string, dir: string): (r: Option<string>)
    ensures StartsWith(clean, "<") <==> r.None?
    ensures StartsWith(clean, "\"") ==> r == Some(JoinPath(dir, TrimEndChar(TrimStartChar(clean, '"'), '"')))
  {
    if StartsWith(clean, "\"") then Some(JoinPath(dir, TrimEndChar(TrimStartChar(clean, '"'), '"')))
    else if StartsWith(clean, "<") then None
    else Some(JoinPath(dir, clean))
  }

  /** A relative Python import resolves, whatever the file system holds, to
      a ".py" file whose module path has its dots turned into separators. */
  lemma {:induction false} PythonRelative(importPath: string, dir: string, fs: FileSystem)
    requires StartsWith(Trim(importPath), ".")
    ensures var r := ResolveImport(importPath, Some(dir), Python, fs);
            r.Some? && EndsWith(r.value, ".py")
            && EndsWith(r.value, Replace(TrimStartChar(Trim(importPath), '.'), ".", "/") + ".py")
            && '.' !in Replace(TrimStartChar(Trim(importPath), '.'), ".", "/")
  {
    var m := Replace(TrimStartChar(Trim(importPath), '.'), ".", "/");
    ReplaceRemoves(TrimStartChar(Trim(importPath), '.'), '.', "/");
    var j := JoinPath(dir, m + ".py");
    EndsWithSuffix(j, m, ".py");
  }

  lemma {:induction false} EndsWithSuffix(s: string, a: string, b: string)
    requires EndsWith(s, a + b)
    ensures EndsWith(s, b)
  {
    assert s[|s| - |b|..] == (a + b)[|a|..];
  }

  /** Replacing a character by text without it leaves none of it. */
  lemma {:induction false} ReplaceRemoves(s: string, c: char, by_: string)
    requires c !in by_
    ensures c !in Replace(s, [c], by_)
  {
    ReplaceCharFree(s, c, by_);
  }

  lemma {:induction false} ReplaceCharFree(s: string, c: char, by_: string)
    requires c !in by_
    ensures c !in Replace(s, [c], by_)
    decreases |s|
  {
    SplitThenJoinIsReplace(s, [c], by_);
    PiecesFree(s, c);
    JoinFree(Split(s, [c]), by_, c);
  }

  lemma {:induction false} JoinFree(parts: seq<string>, sep: string, c: char)
    requires c !in sep && forall k :: 0 <= k < |parts| ==> c !in parts[k]
    ensures c !in JoinWith(parts, sep)
    decreases |parts|
  {
    if |parts| > 1 {
      JoinFree(parts[1..], sep, c);
    }
  }

  // ---------------------------------------------------------------------------
  // File discovery predicates
  // ---------------------------------------------------------------------------

  /** `AnalysisSession::should_exclude_path`: some excluded pattern occurs in
      the path text. */
  method ShouldExcludePath(config: AnalysisConfig, path: string) returns (r: bool)
    ensures r <==> exists k :: 0 <= k < |config.excludedPatterns| && Contains(path, config.excludedPatterns[k])
  {
    r := Paths.ShouldIgnore(config.excludedPatterns, path);
  }

  /** `AnalysisSession::is_test_file`. */
  predicate IsTestFile(path: string) {
    var name := Lower(match Paths.FileName(path) case Some(n) => n case None => "");
    var p := Lower(path);
    Contains(name, "test") || Contains(name, "spec")
    || Contains(p, "__tests__")
    || EndsWith(p, ".test.js") || EndsWith(p, ".test.ts")
    || EndsWith(p, ".spec.js") || EndsWith(p, ".spec.ts")
    || Contains(p, "/test/") || Contains(p, "/tests/")
    || Contains(p, "/spec/") || Contains(p, "/specs/")
  }

  /** Every file below a "tests" directory is a test file, whatever the
      case of the rest of the path. */
  lemma {:induction false} UnderTestsIsTest(dir: string, rest: string)
    ensures IsTestFile(dir + "/tests/" + rest)
  {
    LowerAppend(dir + "/tests/", rest);
    LowerAppend(dir, "/tests/");
    LowerUnchanged("/tests/");
    var p := Lower(dir + "/tests/" + rest);
    assert p == Lower(dir) + "/tests/" + Lower(rest);
    assert p[|Lower(dir)|..|Lower(dir)| + 7] == "/tests/";
    assert Occurs(p, "/tests/", |Lower(dir)|);
    ContainsIff(p, "/tests/");
  }

  // ---------------------------------------------------------------------------
  // Session commands
  // ---------------------------------------------------------------------------

  datatype Command = StatsCommand | ComplexityCommand | StructureCommand | FindCommand(term: string) | CyclesCommand

  /** The dispatch of `execute_session_command`: an unknown session is an
      error before the command is looked at; "find" takes its term from the
      first argument, or the empty term. */
  function SessionCommand(sessions: set<string>, id: string, command: string, args: seq<string>)
    : (r: Result<Command>)
    ensures id !in sessions ==> r == Err("Session not found: " + id)
    ensures r.Ok? <==> id in sessions && command in {"stats", "complexity", "structure", "find", "include-cycles"}
    ensures r.Ok? && r.value.FindCommand? ==> r.value.term == if |args| > 0 then args[0] else ""
  {
    if id !in sessions then Err("Session not found: " + id)
    else if command == "stats" then Ok(StatsCommand)
    else if command == "complexity" then Ok(ComplexityCommand)
    else if command == "structure" then Ok(StructureCommand)
    else if command == "find" then Ok(FindCommand(if |args| > 0 then args[0] else ""))
    else if command == "include-cycles" then Ok(CyclesCommand)
    else Err("Unknown session command: " + command)
  }
}
