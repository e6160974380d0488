/** The impact engine of the workspace tools: risk bands, the comparison of
    two analysis snapshots of a directory (file by file and function by
    function, matched by path and by name) and the overall risk assessment.
    Hash maps keyed by name or path keep the last entry with a key, as
    `collect` does; the source iterates them in hash order, which the model
    takes from the sequences it is given (see each operation). */
module NekoImpact {
  import opened Wrappers
  import opened Strs
  import opened Seqs
  import opened SharedTypes

  datatype RiskLevel = Low | Medium | High

  function RiskRank(r: RiskLevel): nat {
    match r
    case Low => 0
    case Medium => 1
    case High => 2
  }

  /** `RiskLevel::as_str`. */
  function RiskText(r: RiskLevel): (t: string)
    ensures t == "Low" || t == "Medium" || t == "High"
  {
    match r
    case Low => "Low"
    case Medium => "Medium"
    case High => "High"
  }

  /** `RiskLevel::emoji`: a green, yellow or red circle. */
  function RiskEmoji(r: RiskLevel): string {
    match r
    case Low => "\U{1F7E2}"
    case Medium => "\U{1F7E1}"
    case High => "\U{1F534}"
  }

  /** Each level has its own name and its own emoji. */
  lemma {:induction false} RiskTextsDistinct(a: RiskLevel, b: RiskLevel)
    ensures RiskText(a) == RiskText(b) <==> a == b
    ensures RiskEmoji(a) == RiskEmoji(b) <==> a == b
  {
  }

  /** `RiskLevel::from_change_count`: up to two changes Low, up to ten
      Medium, more High. */
  function FromChangeCount(count: nat): (r: RiskLevel)
    ensures r == Low <==> count <= 2
    ensures r == Medium <==> 3 <= count <= 10
    ensures r == High <==> count > 10
  {
    if count <= 2 then Low else if count <= 10 then Medium else High
  }

  /** More changes never give a lower risk. */
  lemma {:induction false} FromChangeCountMonotone(a: nat, b: nat)
    requires a <= b
    ensures RiskRank(FromChangeCount(a)) <= RiskRank(FromChangeCount(b))
  {
  }

  datatype ChangeType =
    | FunctionAdded | FunctionRemoved | FunctionModified
    | ClassAdded | ClassRemoved | ClassModified
    | SignatureChanged | TypeChanged

  /** `ChangeType::is_breaking`: removals and signature or type changes
      break callers; additions and plain modifications do not. */
  function IsBreaking(t: ChangeType): (r: bool)
    ensures r <==> !(t == FunctionAdded || t == FunctionModified || t == ClassAdded || t == ClassModified)
  {
    t == FunctionRemoved || t == ClassRemoved || t == SignatureChanged || t == TypeChanged
  }

  /** `ChangeType::as_str`. */
  function ChangeTypeText(t: ChangeType): string {
    match t
    case FunctionAdded => "Function added"
    case FunctionRemoved => "Function removed"
    case FunctionModified => "Function modified"
    case ClassAdded => "Class added"
    case ClassRemoved => "Class removed"
    case ClassModified => "Class modified"
    case SignatureChanged => "Signature changed"
    case TypeChanged => "Type changed"
  }

  /** Each change type has its own text. */
  lemma {:induction false} ChangeTypeTextInjective(a: ChangeType, b: ChangeType)
    ensures ChangeTypeText(a) == ChangeTypeText(b) <==> a == b
  {
  }

  datatype SymbolReference = SymbolReference(
    filePath: string,
    lineNumber: nat,
    referenceType: string,
    context: string)

  datatype ChangedSymbol = ChangedSymbol(
    name: string,
    symbolType: string,
    filePath: string,
    lineNumber: nat,
    changeType: ChangeType,
    signatureBefore: Option<string>,
    signatureAfter: Option<string>,
    references: seq<SymbolReference>,
    riskLevel: RiskLevel,
    breakingChange: bool)

  datatype BreakingChange = BreakingChange(
    symbol: string,
    changeType: ChangeType,
    filePath: string,
    lineNumber: nat,
    description: string,
    affectedFiles: seq<string>)

  datatype RiskAssessment = RiskAssessment(
    overallRisk: RiskLevel,
    highRiskCount: nat,
    mediumRiskCount: nat,
    lowRiskCount: nat,
    breakingChangeCount: nat,
    affectedFileCount: nat,
    recommendation: string)

  datatype ImpactResult = ImpactResult(
    changedSymbols: seq<ChangedSymbol>,
    affectedFiles: set<string>,
    totalReferences: nat,
    riskAssessment: RiskAssessment,
    breakingChanges: seq<BreakingChange>)

  // ---------------------------------------------------------------------------
  // Signatures
  // ---------------------------------------------------------------------------

  function ParamText(p: ParameterInfo): string {
    match p.paramType
    case None => p.name
    case Some(t) => p.name + ": " + t
  }

  function ReturnSuffix(f: FunctionInfo): string {
    match f.returnType
    case None => ""
    case Some(t) => " -> " + t
  }

  /** `get_function_signature`: `name(p: T, q, ...)` followed by ` -> R`
      when the return type is known. */
  function FunctionSignature(f: FunctionInfo): (r: string)
    ensures StartsWith(r, f.symbol.name + "(")
    ensures EndsWith(r, ")" + ReturnSuffix(f))
  {
    var head := f.symbol.name + "(" + JoinWith(MapSeq(ParamText, f.parameters), ", ");
    var r := head + ")" + ReturnSuffix(f);
    assert r[..|f.symbol.name + "("|] == f.symbol.name + "(";
    assert r[|r| - |")" + ReturnSuffix(f)|..] == ")" + ReturnSuffix(f);
    r
  }

  /** Two functions that differ only in their return type have different
      signatures. */
  lemma {:induction false} SignatureSeesReturnType(f: FunctionInfo, g: FunctionInfo)
    requires f.symbol.name == g.symbol.name && f.parameters == g.parameters
    requires f.returnType != g.returnType
    ensures FunctionSignature(f) != FunctionSignature(g)
  {
    var head := f.symbol.name + "(" + JoinWith(MapSeq(ParamText, f.parameters), ", ") + ")";
    assert FunctionSignature(f)[|head|..] == ReturnSuffix(f);
    assert FunctionSignature(g)[|head|..] == ReturnSuffix(g);
    ReturnSuffixInjective(f, g);
  }

  /** The return suffix determines the return type. */
  lemma {:induction false} ReturnSuffixInjective(f: FunctionInfo, g: FunctionInfo)
    ensures ReturnSuffix(f) == ReturnSuffix(g) ==> f.returnType == g.returnType
  {
    if f.returnType.Some? && g.returnType.Some? {
      assert ReturnSuffix(f)[4..] == f.returnType.value;
      assert ReturnSuffix(g)[4..] == g.returnType.value;
    }
  }

  // ---------------------------------------------------------------------------
  // Collecting into hash maps
  // ---------------------------------------------------------------------------

  /** `xs.iter().map(|x| (key(x), x)).collect::<HashMap<_, _>>()`: every key
      of `xs` maps to an element carrying it, the one that comes last. */
  function CollectByKey<T>(xs: seq<T>, key: T -> string): (m: map<string, T>)
    ensures forall k :: k in m ==> m[k] in xs && key(m[k]) == k
    ensures forall i :: 0 <= i < |xs| ==> key(xs[i]) in m
    decreases |xs|
  {
    if |xs| == 0 then map[]
    else
      var rest := CollectByKey(xs[1..], key);
      assert forall i :: 1 <= i < |xs| ==> xs[i] == xs[1..][i - 1];
      if key(xs[0]) in rest then rest else rest[key(xs[0]) := xs[0]]
  }

  /** The last element wins: it is what its key maps to. */
  lemma {:induction false} CollectLastWins<T>(xs: seq<T>, key: T -> string, i: nat)
    requires i < |xs|
    requires forall j :: i < j < |xs| ==> key(xs[j]) != key(xs[i])
    ensures CollectByKey(xs, key)[key(xs[i])] == xs[i]
    decreases |xs|
  {
    if i > 0 {
      assert forall j :: i - 1 < j < |xs| - 1 ==> xs[1..][j] == xs[j + 1];
      CollectLastWins(xs[1..], key, i - 1);
    }
  }

  /** The elements that are the last with their key, in order: the values of
      `CollectByKey`, each once. */
  function LastByKey<T>(xs: seq<T>, key: T -> string): (r: seq<T>)
    ensures forall k :: 0 <= k < |r| ==>
              key(r[k]) in CollectByKey(xs, key) && CollectByKey(xs, key)[key(r[k])] == r[k]
    ensures forall n :: n in CollectByKey(xs, key) ==> CollectByKey(xs, key)[n] in r
    ensures forall i, j :: 0 <= i < j < |r| ==> key(r[i]) != key(r[j])
    decreases |xs|
  {
    if |xs| == 0 then []
    else
      var rest := LastByKey(xs[1..], key);
      var tail := CollectByKey(xs[1..], key);
      if key(xs[0]) in tail then rest
      else
        assert CollectByKey(xs, key) == tail[key(xs[0]) := xs[0]];
        LastByKeyCons(xs[0], rest, tail, key);
        [xs[0]] + rest
  }

  /** One step of `LastByKey`: an element whose key comes later nowhere
      joins the front. */
  lemma {:induction false} LastByKeyCons<T>(x: T, rest: seq<T>, tail: map<string, T>, key: T -> string)
    requires key(x) !in tail
    requires forall k :: 0 <= k < |rest| ==> key(rest[k]) in tail && tail[key(rest[k])] == rest[k]
    requires forall n :: n in tail ==> tail[n] in rest
    requires forall i, j :: 0 <= i < j < |rest| ==> key(rest[i]) != key(rest[j])
    ensures var r := [x] + rest;
            var m := tail[key(x) := x];
            && (forall k :: 0 <= k < |r| ==> key(r[k]) in m && m[key(r[k])] == r[k])
            && (forall n :: n in m ==> m[n] in r)
            && (forall i, j :: 0 <= i < j < |r| ==> key(r[i]) != key(r[j]))
  {
    var r := [x] + rest;
    assert forall k :: 1 <= k < |r| ==> r[k] == rest[k - 1];
  }

  function FunctionName(f: FunctionInfo): string { f.symbol.name }

  function ResultPath(r: AnalysisResult): string { r.fileInfo.path }

  // ---------------------------------------------------------------------------
  // Comparing two versions of a file
  // ---------------------------------------------------------------------------

  function RemovedSymbol(path: string, f: FunctionInfo): ChangedSymbol {
    ChangedSymbol(f.symbol.name, "function", path, f.symbol.lineStart, FunctionRemoved,
                  Some(FunctionSignature(f)), None, [], High, true)
  }

  function AddedSymbol(path: string, f: FunctionInfo): ChangedSymbol {
    ChangedSymbol(f.symbol.name, "function", path, f.symbol.lineStart, FunctionAdded,
                  None, Some(FunctionSignature(f)), [], Low, false)
  }

  function ResignedSymbol(path: string, before: FunctionInfo, after: FunctionInfo): ChangedSymbol {
    ChangedSymbol(after.symbol.name, "function", path, after.symbol.lineStart, SignatureChanged,
                  Some(FunctionSignature(before)), Some(FunctionSignature(after)), [], High, true)
  }

  function NameMissing(m: map<string, FunctionInfo>): FunctionInfo -> bool {
    (f: FunctionInfo) => f.symbol.name !in m
  }

  function Removal(path: string): FunctionInfo -> ChangedSymbol {
    (f: FunctionInfo) => RemovedSymbol(path, f)
  }

  /** The change entry for one head function, given the base functions by
      name: added when the base lacks the name, a signature change when the
      signatures differ, nothing otherwise. */
  function HeadChange(path: string, base: map<string, FunctionInfo>, f: FunctionInfo): seq<ChangedSymbol> {
    if f.symbol.name !in base then [AddedSymbol(path, f)]
    else if FunctionSignature(base[f.symbol.name]) != FunctionSignature(f) then
      [ResignedSymbol(path, base[f.symbol.name], f)]
    else []
  }

  /** `c` is the entry of some function of `head`. */
  predicate HeadEntry(path: string, base: map<string, FunctionInfo>, head: seq<FunctionInfo>, c: ChangedSymbol) {
    exists j :: 0 <= j < |head| && c in HeadChange(path, base, head[j])
  }

  function HeadChanges(path: string, base: map<string, FunctionInfo>, head: seq<FunctionInfo>): (r: seq<ChangedSymbol>)
    ensures forall c :: c in r ==> HeadEntry(path, base, head, c)
    ensures forall j, c :: 0 <= j < |head| && c in HeadChange(path, base, head[j]) ==> c in r
    decreases |head|
  {
    if |head| == 0 then []
    else
      var here := HeadChange(path, base, head[0]);
      var rest := HeadChanges(path, base, head[1..]);
      HeadChangesStep(path, base, head, here, rest);
      here + rest
  }

  lemma {:induction false} HeadChangesStep(path: string, base: map<string, FunctionInfo>, head: seq<FunctionInfo>,
                                           here: seq<ChangedSymbol>, rest: seq<ChangedSymbol>)
    requires |head| > 0 && here == HeadChange(path, base, head[0])
    requires forall c :: c in rest ==> HeadEntry(path, base, head[1..], c)
    requires forall j, c :: 0 <= j < |head[1..]| && c in HeadChange(path, base, head[1..][j]) ==> c in rest
    ensures forall c :: c in here + rest ==> HeadEntry(path, base, head, c)
    ensures forall j, c :: 0 <= j < |head| && c in HeadChange(path, base, head[j]) ==> c in here + rest
  {
    forall c | c in here + rest ensures HeadEntry(path, base, head, c) {
      if c !in here {
        var j :| 0 <= j < |head[1..]| && c in HeadChange(path, base, head[1..][j]);
        assert head[1..][j] == head[j + 1];
      }
    }
    forall j, c | 0 <= j < |head| && c in HeadChange(path, base, head[j]) ensures c in here + rest {
      if j > 0 {
        assert head[1..][j - 1] == head[j];
      }
    }
  }

  /** `compare_file_results`: the removals, then the additions and signature
      changes, of one file between two snapshots. Each hash map is walked in
      the order of the last function with each name. */
  function CompareFileResults(base: AnalysisResult, head: AnalysisResult): seq<ChangedSymbol> {
    var bf := CollectByKey(base.functions, FunctionName);
    var hf := CollectByKey(head.functions, FunctionName);
    MapSeq(Removal(base.fileInfo.path), Filter(NameMissing(hf), LastByKey(base.functions, FunctionName)))
      + HeadChanges(head.fileInfo.path, bf, LastByKey(head.functions, FunctionName))
  }

  /** What one entry of a file comparison says, by kind: a removal names a
      function only the base has; an addition one only the head has; a
      signature change one both have with different signatures. Removals
      and signature changes are High and breaking, additions Low and not. */
  predicate EntryExplained(bf: map<string, FunctionInfo>, hf: map<string, FunctionInfo>, c: ChangedSymbol) {
    || (c.changeType == FunctionRemoved && c.name in bf && c.name !in hf && c.riskLevel == High && c.breakingChange)
    || (c.changeType == FunctionAdded && c.name !in bf && c.name in hf && c.riskLevel == Low && !c.breakingChange)
    || (c.changeType == SignatureChanged && c.name in bf && c.name in hf
        && FunctionSignature(bf[c.name]) != FunctionSignature(hf[c.name]) && c.riskLevel == High && c.breakingChange)
  }

  /** The removal part of a file comparison. */
  function Removals(path: string, bl: seq<FunctionInfo>, hf: map<string, FunctionInfo>): seq<ChangedSymbol> {
    MapSeq(Removal(path), Filter(NameMissing(hf), bl))
  }

  lemma {:induction false} CompareFileParts(base: AnalysisResult, head: AnalysisResult)
    ensures CompareFileResults(base, head)
         == Removals(base.fileInfo.path, LastByKey(base.functions, FunctionName),
                     CollectByKey(head.functions, FunctionName))
          + HeadChanges(head.fileInfo.path, CollectByKey(base.functions, FunctionName),
                        LastByKey(head.functions, FunctionName))
  {
  }

  /** Each removal names a base function the head lacks. */
  lemma {:induction false} RemovalsExplained(base: AnalysisResult, head: AnalysisResult)
    ensures var bf := CollectByKey(base.functions, FunctionName);
            var hf := CollectByKey(head.functions, FunctionName);
            forall c :: c in Removals(base.fileInfo.path, LastByKey(base.functions, FunctionName), hf) ==>
              EntryExplained(bf, hf, c)
  {
    RemovalsExplainedBy(base.fileInfo.path, CollectByKey(base.functions, FunctionName),
                        CollectByKey(head.functions, FunctionName), LastByKey(base.functions, FunctionName));
  }

  lemma {:induction false} RemovalsExplainedBy(path: string, bf: map<string, FunctionInfo>,
                                               hf: map<string, FunctionInfo>, bl: seq<FunctionInfo>)
    requires forall k :: 0 <= k < |bl| ==> FunctionName(bl[k]) in bf && bf[FunctionName(bl[k])] == bl[k]
    ensures forall c :: c in Removals(path, bl, hf) ==> EntryExplained(bf, hf, c)
  {
    var kept := Filter(NameMissing(hf), bl);
    var removals := Removals(path, bl, hf);
    forall c | c in removals ensures EntryExplained(bf, hf, c) {
      var k :| 0 <= k < |removals| && removals[k] == c;
      var f := kept[k];
      assert f in kept;
      assert c == RemovedSymbol(path, f) && f.symbol.name !in hf;
      var j :| 0 <= j < |bl| && bl[j] == f;
      RemovalExplained(path, bf, hf, f);
    }
  }

  lemma {:induction false} RemovalExplained(path: string, bf: map<string, FunctionInfo>,
                                            hf: map<string, FunctionInfo>, f: FunctionInfo)
    requires f.symbol.name in bf && bf[f.symbol.name] == f && f.symbol.name !in hf
    ensures EntryExplained(bf, hf, RemovedSymbol(path, f))
  {
  }

  lemma {:induction false} HeadChangeExplained(path: string, bf: map<string, FunctionInfo>,
                                               hf: map<string, FunctionInfo>, f: FunctionInfo)
    requires f.symbol.name in hf && hf[f.symbol.name] == f
    ensures forall c :: c in HeadChange(path, bf, f) ==> EntryExplained(bf, hf, c)
  {
  }

  /** Each head entry is an addition or a signature change the snapshots
      bear out. */
  lemma {:induction false} HeadChangesExplained(base: AnalysisResult, head: AnalysisResult)
    ensures var bf := CollectByKey(base.functions, FunctionName);
            var hf := CollectByKey(head.functions, FunctionName);
            forall c :: c in HeadChanges(head.fileInfo.path, bf, LastByKey(head.functions, FunctionName)) ==>
              EntryExplained(bf, hf, c)
  {
    var bf := CollectByKey(base.functions, FunctionName);
    var hf := CollectByKey(head.functions, FunctionName);
    var hl := LastByKey(head.functions, FunctionName);
    forall c | c in HeadChanges(head.fileInfo.path, bf, hl) ensures EntryExplained(bf, hf, c) {
      var j :| 0 <= j < |hl| && c in HeadChange(head.fileInfo.path, bf, hl[j]);
      assert hf[FunctionName(hl[j])] == hl[j];
      HeadChangeExplained(head.fileInfo.path, bf, hf, hl[j]);
    }
  }

  /** Every base name the head lacks has its removal. */
  lemma {:induction false} RemovalsComplete(base: AnalysisResult, head: AnalysisResult)
    ensures var bf := CollectByKey(base.functions, FunctionName);
            var hf := CollectByKey(head.functions, FunctionName);
            forall n :: n in bf && n !in hf ==>
              RemovedSymbol(base.fileInfo.path, bf[n]) in Removals(base.fileInfo.path, LastByKey(base.functions, FunctionName), hf)
  {
    RemovalsCompleteBy(base.fileInfo.path, CollectByKey(base.functions, FunctionName),
                       CollectByKey(head.functions, FunctionName), LastByKey(base.functions, FunctionName));
  }

  lemma {:induction false} RemovalsCompleteBy(path: string, bf: map<string, FunctionInfo>,
                                              hf: map<string, FunctionInfo>, bl: seq<FunctionInfo>)
    requires forall n :: n in bf ==> bf[n] in bl && FunctionName(bf[n]) == n
    ensures forall n :: n in bf && n !in hf ==> RemovedSymbol(path, bf[n]) in Removals(path, bl, hf)
  {
    var kept := Filter(NameMissing(hf), bl);
    var removals := Removals(path, bl, hf);
    forall n | n in bf && n !in hf ensures RemovedSymbol(path, bf[n]) in removals {
      FilterKeeps(NameMissing(hf), bl, bf[n]);
      var k :| 0 <= k < |kept| && kept[k] == bf[n];
      assert removals[k] == RemovedSymbol(path, bf[n]);
    }
  }

  /** Every head name that is new or whose signature changed has its entry. */
  lemma {:induction false} HeadChangesComplete(base: AnalysisResult, head: AnalysisResult)
    ensures var bf := CollectByKey(base.functions, FunctionName);
            var hf := CollectByKey(head.functions, FunctionName);
            forall n, c :: n in hf && c in HeadChange(head.fileInfo.path, bf, hf[n]) ==>
              c in HeadChanges(head.fileInfo.path, bf, LastByKey(head.functions, FunctionName))
  {
    var bf := CollectByKey(base.functions, FunctionName);
    var hf := CollectByKey(head.functions, FunctionName);
    var hl := LastByKey(head.functions, FunctionName);
    forall n, c | n in hf && c in HeadChange(head.fileInfo.path, bf, hf[n])
      ensures c in HeadChanges(head.fileInfo.path, bf, hl)
    {
      var j :| 0 <= j < |hl| && hl[j] == hf[n];
    }
  }

  /** Every entry of a file comparison is explained by the two snapshots, and
      every name that is only in the base, only in the head, or in both
      with different signatures has its entry. */
  lemma {:induction false} CompareFileSpec(base: AnalysisResult, head: AnalysisResult)
    ensures var bf := CollectByKey(base.functions, FunctionName);
            var hf := CollectByKey(head.functions, FunctionName);
            forall c :: c in CompareFileResults(base, head) ==> EntryExplained(bf, hf, c)
    ensures var bf := CollectByKey(base.functions, FunctionName);
            var hf := CollectByKey(head.functions, FunctionName);
            forall n :: n in bf && n !in hf ==> RemovedSymbol(base.fileInfo.path, bf[n]) in CompareFileResults(base, head)
    ensures var bf := CollectByKey(base.functions, FunctionName);
            var hf := CollectByKey(head.functions, FunctionName);
            forall n :: n in hf && n !in bf ==> AddedSymbol(head.fileInfo.path, hf[n]) in CompareFileResults(base, head)
    ensures var bf := CollectByKey(base.functions, FunctionName);
            var hf := CollectByKey(head.functions, FunctionName);
            forall n :: n in bf && n in hf && FunctionSignature(bf[n]) != FunctionSignature(hf[n]) ==>
              ResignedSymbol(head.fileInfo.path, bf[n], hf[n]) in CompareFileResults(base, head)
  {
    var bf := CollectByKey(base.functions, FunctionName);
    var hf := CollectByKey(head.functions, FunctionName);
    var removals := Removals(base.fileInfo.path, LastByKey(base.functions, FunctionName), hf);
    var changes := HeadChanges(head.fileInfo.path, bf, LastByKey(head.functions, FunctionName));
    CompareFileParts(base, head);
    RemovalsExplained(base, head);
    HeadChangesExplained(base, head);
    RemovalsComplete(base, head);
    HeadChangesComplete(base, head);
    forall n | n in hf && n !in bf ensures AddedSymbol(head.fileInfo.path, hf[n]) in removals + changes {
      assert AddedSymbol(head.fileInfo.path, hf[n]) in HeadChange(head.fileInfo.path, bf, hf[n]);
    }
    forall n | n in bf && n in hf && FunctionSignature(bf[n]) != FunctionSignature(hf[n])
      ensures ResignedSymbol(head.fileInfo.path, bf[n], hf[n]) in removals + changes
    {
      assert ResignedSymbol(head.fileInfo.path, bf[n], hf[n]) in HeadChange(head.fileInfo.path, bf, hf[n]);
    }
  }

  /** A snapshot compared with itself has no changes. */
  lemma {:induction false} CompareFileSelf(r: AnalysisResult)
    ensures CompareFileResults(r, r) == []
  {
    var m := CollectByKey(r.functions, FunctionName);
    var l := LastByKey(r.functions, FunctionName);
    CompareFileParts(r, r);
    FilterNone(NameMissing(m), l);
    HeadChangesNone(r.fileInfo.path, m, l);
  }

  /** When no head function has an entry, the head part is empty. */
  lemma {:induction false} HeadChangesNone(path: string, base: map<string, FunctionInfo>, head: seq<FunctionInfo>)
    requires forall j :: 0 <= j < |head| ==> head[j].symbol.name in base && base[head[j].symbol.name] == head[j]
    ensures HeadChanges(path, base, head) == []
    decreases |head|
  {
    if |head| > 0 {
      assert forall j :: 0 <= j < |head[1..]| ==> head[1..][j] == head[j + 1];
      HeadChangesNone(path, base, head[1..]);
    }
  }

  /** An entry is breaking exactly when it is not an addition. */
  lemma {:induction false} CompareFileBreaking(base: AnalysisResult, head: AnalysisResult, c: ChangedSymbol)
    requires c in CompareFileResults(base, head)
    ensures c.breakingChange <==> c.changeType != FunctionAdded
    ensures c.breakingChange <==> IsBreaking(c.changeType)
  {
    CompareFileSpec(base, head);
  }

  /** Swapping the snapshots swaps removals and additions. */
  lemma {:induction false} CompareFileSwap(base: AnalysisResult, head: AnalysisResult, n: string)
    ensures (exists c :: c in CompareFileResults(base, head) && c.changeType == FunctionRemoved && c.name == n)
        <==> (exists c :: c in CompareFileResults(head, base) && c.changeType == FunctionAdded && c.name == n)
  {
    var bf := CollectByKey(base.functions, FunctionName);
    var hf := CollectByKey(head.functions, FunctionName);
    CompareFileSpec(base, head);
    CompareFileSpec(head, base);
    if n in bf && n !in hf {
      assert AddedSymbol(base.fileInfo.path, bf[n]) in CompareFileResults(head, base);
      assert RemovedSymbol(base.fileInfo.path, bf[n]) in CompareFileResults(base, head);
    }
  }

  // ---------------------------------------------------------------------------
  // Risk assessment
  // ---------------------------------------------------------------------------

  function HasRisk(level: RiskLevel): ChangedSymbol -> bool {
    (c: ChangedSymbol) => c.riskLevel == level
  }

  function Recommendation(r: RiskLevel): string {
    match r
    case High => "\U{26A0}\U{FE0F} High risk changes detected. Thorough testing and review required."
    case Medium => "\U{26A1} Moderate risk changes. Standard testing recommended."
    case Low => "\U{2705} Low risk changes. Safe to proceed with basic testing."
  }

  /** `assess_risk`: counts the symbols of each risk level and rates the
      change High when there are more than five breaking changes or more
      than ten High symbols, Medium when there is any breaking change, any
      High symbol or more than five Medium ones, and Low otherwise. The
      affected-file count is left at zero. */
  function AssessRisk(symbols: seq<ChangedSymbol>, breaking: seq<BreakingChange>): (a: RiskAssessment)
    ensures a.highRiskCount + a.mediumRiskCount + a.lowRiskCount == |symbols|
    ensures a.highRiskCount == CountWhere(HasRisk(High), symbols)
    ensures a.mediumRiskCount == CountWhere(HasRisk(Medium), symbols)
    ensures a.breakingChangeCount == |breaking| && a.affectedFileCount == 0
    ensures a.overallRisk == High <==> |breaking| > 5 || a.highRiskCount > 10
    ensures a.overallRisk == Low <==> |breaking| == 0 && a.highRiskCount == 0 && a.mediumRiskCount <= 5
    ensures a.recommendation == Recommendation(a.overallRisk)
  {
    var high := CountWhere(HasRisk(High), symbols);
    var medium := CountWhere(HasRisk(Medium), symbols);
    var low := CountWhere(HasRisk(Low), symbols);
    RiskCountsPartition(symbols);
    var overall :=
      if |breaking| > 5 || high > 10 then High
      else if |breaking| > 0 || high > 0 || medium > 5 then Medium
      else Low;
    RiskAssessment(overall, high, medium, low, |breaking|, 0, Recommendation(overall))
  }

  /** Every symbol has exactly one risk level. */
  lemma {:induction false} RiskCountsPartition(symbols: seq<ChangedSymbol>)
    ensures CountWhere(HasRisk(High), symbols) + CountWhere(HasRisk(Medium), symbols)
          + CountWhere(HasRisk(Low), symbols) == |symbols|
    decreases |symbols|
  {
    if |symbols| > 0 {
      RiskCountsPartition(symbols[1..]);
    }
  }

  /** More breaking changes for the same symbols never lower the rating. */
  lemma {:induction false} AssessRiskMonotone(symbols: seq<ChangedSymbol>, a: seq<BreakingChange>, b: seq<BreakingChange>)
    requires |a| <= |b|
    ensures RiskRank(AssessRisk(symbols, a).overallRisk) <= RiskRank(AssessRisk(symbols, b).overallRisk)
  {
  }

  // ---------------------------------------------------------------------------
  // Analysing one snapshot
  // ---------------------------------------------------------------------------

  /** `create_changed_symbol`: the function as a change of the given type,
      with its signature as the new one, the risk of zero changes (Low) and
      the type's breaking flag. */
  function CreateChangedSymbol(f: FunctionInfo, t: ChangeType): (c: ChangedSymbol)
    ensures c.name == f.symbol.name && c.filePath == f.symbol.filePath && c.lineNumber == f.symbol.lineStart
    ensures c.changeType == t && c.signatureBefore.None? && c.signatureAfter == Some(FunctionSignature(f))
    ensures c.references == [] && c.riskLevel == Low
    ensures c.breakingChange <==> IsBreaking(t)
  {
    ChangedSymbol(f.symbol.name, "function", f.symbol.filePath, f.symbol.lineStart, t,
                  None, Some(FunctionSignature(f)), [], FromChangeCount(0), IsBreaking(t))
  }

  /** `has_function_changed`: no change detection yet, so never. */
  function HasFunctionChanged(f: FunctionInfo): bool {
    false
  }

  function Modified(f: FunctionInfo): ChangedSymbol {
    CreateChangedSymbol(f, FunctionModified)
  }

  function IsBreakingSymbol(c: ChangedSymbol): bool {
    c.breakingChange
  }

  function ModifiedBreak(c: ChangedSymbol): BreakingChange {
    BreakingChange(c.name, c.changeType, c.filePath, c.lineNumber, c.name + " was modified", [])
  }

  function ReferenceCount(c: ChangedSymbol): nat {
    |c.references|
  }

  function TotalReferences(cs: seq<ChangedSymbol>): nat {
    Sum(MapSeq(ReferenceCount, cs))
  }

  /** No symbol carries references, so there are none in total. */
  lemma {:induction false} NoReferences(cs: seq<ChangedSymbol>)
    requires forall k :: 0 <= k < |cs| ==> cs[k].references == []
    ensures TotalReferences(cs) == 0
    decreases |cs|
  {
    if |cs| > 0 {
      assert MapSeq(ReferenceCount, cs) == [0] + MapSeq(ReferenceCount, cs[1..]);
      assert forall k :: 0 <= k < |cs[1..]| ==> cs[1..][k] == cs[k + 1];
      NoReferences(cs[1..]);
    }
  }

  /** The modification entries of a list of snapshots, file by file and
      function by function, for the functions `changed` picks. */
  function ModifiedSymbols(results: seq<AnalysisResult>, changed: FunctionInfo -> bool): (r: seq<ChangedSymbol>)
    ensures AllModified(r)
    decreases |results|
  {
    if |results| == 0 then []
    else
      var here := MapSeq(Modified, Filter(changed, results[0].functions));
      var rest := ModifiedSymbols(results[1..], changed);
      AllModifiedAppend(Filter(changed, results[0].functions), rest);
      here + rest
  }

  /** Every entry is a Low, non-breaking modification with no references. */
  predicate AllModified(cs: seq<ChangedSymbol>) {
    forall k :: 0 <= k < |cs| ==>
      cs[k].changeType == FunctionModified && cs[k].riskLevel == Low && !cs[k].breakingChange && cs[k].references == []
  }

  lemma {:induction false} AllModifiedAppend(fs: seq<FunctionInfo>, rest: seq<ChangedSymbol>)
    requires AllModified(rest)
    ensures AllModified(MapSeq(Modified, fs) + rest)
  {
    var here := MapSeq(Modified, fs);
    var all := here + rest;
    assert forall k :: |here| <= k < |all| ==> all[k] == rest[k - |here|];
  }

  predicate HasPath(results: seq<AnalysisResult>, p: string) {
    exists i :: 0 <= i < |results| && results[i].fileInfo.path == p
  }

  /** `analyze_results_internal`, for any change test: every function the
      test picks becomes a modification entry, a breaking one getting a
      breaking-change record, and every snapshot's file counts as affected. */
  function AnalyzeResultsInternal(results: seq<AnalysisResult>, changed: FunctionInfo -> bool): (r: ImpactResult)
    ensures forall p :: p in r.affectedFiles <==> HasPath(results, p)
    ensures r.breakingChanges == [] && r.totalReferences == 0
    ensures r.riskAssessment.overallRisk == Low
    ensures r.riskAssessment.lowRiskCount == |r.changedSymbols|
    ensures forall c :: c in r.changedSymbols ==> c.changeType == FunctionModified
  {
    var symbols := ModifiedSymbols(results, changed);
    var breaking := MapSeq(ModifiedBreak, Filter(IsBreakingSymbol, symbols));
    FilterNone(IsBreakingSymbol, symbols);
    CountWhereAll(HasRisk(Low), symbols);
    NoReferences(symbols);
    var affected := set i | 0 <= i < |results| :: results[i].fileInfo.path;
    ImpactResult(symbols, affected, TotalReferences(symbols), AssessRisk(symbols, breaking), breaking)
  }

  /** `analyze_session`: with no change detection the analysis reports no
      changes, only the session's files as affected. */
  lemma {:induction false} AnalyzeSessionReportsNothing(results: seq<AnalysisResult>)
    ensures AnalyzeResultsInternal(results, HasFunctionChanged).changedSymbols == []
  {
    ModifiedSymbolsNone(results);
  }

  lemma {:induction false} ModifiedSymbolsNone(results: seq<AnalysisResult>)
    ensures ModifiedSymbols(results, HasFunctionChanged) == []
    decreases |results|
  {
    if |results| > 0 {
      FilterNone(HasFunctionChanged, results[0].functions);
      ModifiedSymbolsNone(results[1..]);
    }
  }

  // ---------------------------------------------------------------------------
  // Comparing two snapshots of a directory
  // ---------------------------------------------------------------------------

  /** What a comparison has gathered so far. */
  datatype Tally = Tally(symbols: seq<ChangedSymbol>, breaking: seq<BreakingChange>, affected: set<string>)

  function Addition(path: string): FunctionInfo -> ChangedSymbol {
    (f: FunctionInfo) => AddedSymbol(path, f)
  }

  function RemovedBreak(c: ChangedSymbol): BreakingChange {
    BreakingChange(c.name, c.changeType, c.filePath, c.lineNumber, "Function " + c.name + " was removed", [])
  }

  function EntryBreak(c: ChangedSymbol): BreakingChange {
    BreakingChange(c.name, c.changeType, c.filePath, c.lineNumber, c.name + " " + ChangeTypeText(c.changeType), [])
  }

  /** A file only the base has: every function is removed, each with its
      breaking-change record, and the file is affected. */
  function RemovedFile(t: Tally, r: AnalysisResult): Tally {
    var cs := MapSeq(Removal(r.fileInfo.path), r.functions);
    Tally(t.symbols + cs, t.breaking + MapSeq(RemovedBreak, cs), t.affected + {r.fileInfo.path})
  }

  /** The first loop: the base files, in map order, that the head lacks. */
  function RemovedFiles(t: Tally, bl: seq<AnalysisResult>, hm: map<string, AnalysisResult>): Tally
    decreases |bl|
  {
    if |bl| == 0 then t
    else RemovedFiles(if bl[0].fileInfo.path in hm then t else RemovedFile(t, bl[0]), bl[1..], hm)
  }

  /** One head file: compared function by function when the base has it,
      otherwise every function is added and the file is affected. A file
      both have is marked affected when the changes gathered so far are not
      empty (`accumulated`, as the source does) or when its own changes are
      not empty (otherwise). */
  function HeadFile(t: Tally, r: AnalysisResult, bm: map<string, AnalysisResult>, accumulated: bool): Tally {
    var path := r.fileInfo.path;
    if path in bm then
      var changes := CompareFileResults(bm[path], r);
      var symbols := t.symbols + changes;
      var mark := if accumulated then |symbols| > 0 else |changes| > 0;
      Tally(symbols, t.breaking + MapSeq(EntryBreak, Filter(IsBreakingSymbol, changes)),
            if mark then t.affected + {path} else t.affected)
    else
      Tally(t.symbols + MapSeq(Addition(path), r.functions), t.breaking, t.affected + {path})
  }

  /** The second loop: the head files in map order. */
  function HeadFiles(t: Tally, hl: seq<AnalysisResult>, bm: map<string, AnalysisResult>, accumulated: bool): Tally
    decreases |hl|
  {
    if |hl| == 0 then t
    else HeadFiles(HeadFile(t, hl[0], bm, accumulated), hl[1..], bm, accumulated)
  }

  function ImpactOf(t: Tally): ImpactResult {
    ImpactResult(t.symbols, t.affected, TotalReferences(t.symbols), AssessRisk(t.symbols, t.breaking), t.breaking)
  }

  /** Both loops over the snapshots keyed by path (the last snapshot with a
      path wins, and each map is walked in the order of those). */
  function CompareSnapshots(base: seq<AnalysisResult>, head: seq<AnalysisResult>, accumulated: bool): ImpactResult {
    var bm := CollectByKey(base, ResultPath);
    var hm := CollectByKey(head, ResultPath);
    var t := RemovedFiles(Tally([], [], {}), LastByKey(base, ResultPath), hm);
    ImpactOf(HeadFiles(t, LastByKey(head, ResultPath), bm, accumulated))
  }

  /** `compare_analysis_results`, as written. */
  function CompareAnalysisResults(base: seq<AnalysisResult>, head: seq<AnalysisResult>): ImpactResult {
    CompareSnapshots(base, head, true)
  }

  /** `compare_analysis_results` with a file both snapshots have marked
      affected only by its own changes. */
  function CompareAnalysisFixed(base: seq<AnalysisResult>, head: seq<AnalysisResult>): ImpactResult {
    CompareSnapshots(base, head, false)
  }

  // ---------------------------------------------------------------------------
  // What the loops gather
  // ---------------------------------------------------------------------------

  /** `u` extends `t`: both lists by appending, the set by adding. */
  predicate Grows(t: Tally, u: Tally) {
    t.symbols <= u.symbols && t.breaking <= u.breaking && t.affected <= u.affected
  }

  lemma {:induction false} GrowsTrans(t: Tally, u: Tally, v: Tally)
    requires Grows(t, u) && Grows(u, v)
    ensures Grows(t, v)
  {
  }

  lemma {:induction false} RemovedFilesGrows(t: Tally, bl: seq<AnalysisResult>, hm: map<string, AnalysisResult>)
    ensures Grows(t, RemovedFiles(t, bl, hm))
    decreases |bl|
  {
    if |bl| > 0 {
      var t' := if bl[0].fileInfo.path in hm then t else RemovedFile(t, bl[0]);
      RemovedFilesGrows(t', bl[1..], hm);
      GrowsTrans(t, t', RemovedFiles(t', bl[1..], hm));
    }
  }

  lemma {:induction false} HeadFilesGrows(t: Tally, hl: seq<AnalysisResult>, bm: map<string, AnalysisResult>, accumulated: bool)
    ensures Grows(t, HeadFiles(t, hl, bm, accumulated))
    decreases |hl|
  {
    if |hl| > 0 {
      var t' := HeadFile(t, hl[0], bm, accumulated);
      HeadFilesGrows(t', hl[1..], bm, accumulated);
      GrowsTrans(t, t', HeadFiles(t', hl[1..], bm, accumulated));
    }
  }

  /** Every function of `r` has its removal and its breaking-change record. */
  predicate RemovalsIn(u: Tally, r: AnalysisResult) {
    forall f :: f in r.functions ==>
      RemovedSymbol(r.fileInfo.path, f) in u.symbols
      && RemovedBreak(RemovedSymbol(r.fileInfo.path, f)) in u.breaking
  }

  /** Every function of `r` has its addition. */
  predicate AdditionsIn(u: Tally, r: AnalysisResult) {
    forall f :: f in r.functions ==> AddedSymbol(r.fileInfo.path, f) in u.symbols
  }

  /** Every entry of `cs` is gathered, a breaking one with its record. */
  predicate ChangesIn(u: Tally, cs: seq<ChangedSymbol>) {
    forall c :: c in cs ==> c in u.symbols && (c.breakingChange ==> EntryBreak(c) in u.breaking)
  }

  lemma {:induction false} GrowsKeeps(t: Tally, u: Tally)
    requires Grows(t, u)
    ensures forall r :: RemovalsIn(t, r) ==> RemovalsIn(u, r)
    ensures forall r :: AdditionsIn(t, r) ==> AdditionsIn(u, r)
    ensures forall cs :: ChangesIn(t, cs) ==> ChangesIn(u, cs)
  {
    PrefixMembers(t.symbols, u.symbols);
    PrefixMembers(t.breaking, u.breaking);
  }

  lemma {:induction false} RemovedFileGathers(t: Tally, r: AnalysisResult)
    ensures RemovalsIn(RemovedFile(t, r), r) && r.fileInfo.path in RemovedFile(t, r).affected
  {
    var p := r.fileInfo.path;
    var cs := MapSeq(Removal(p), r.functions);
    AppendedRemovals(t.symbols, t.breaking, cs, r);
  }

  lemma {:induction false} AppendedRemovals(symbols: seq<ChangedSymbol>, breaking: seq<BreakingChange>,
                                            cs: seq<ChangedSymbol>, r: AnalysisResult)
    requires cs == MapSeq(Removal(r.fileInfo.path), r.functions)
    ensures forall f :: f in r.functions ==>
              RemovedSymbol(r.fileInfo.path, f) in symbols + cs
              && RemovedBreak(RemovedSymbol(r.fileInfo.path, f)) in breaking + MapSeq(RemovedBreak, cs)
  {
    var p := r.fileInfo.path;
    var bs := MapSeq(RemovedBreak, cs);
    forall f | f in r.functions
      ensures RemovedSymbol(p, f) in symbols + cs && RemovedBreak(RemovedSymbol(p, f)) in breaking + bs
    {
      var j :| 0 <= j < |r.functions| && r.functions[j] == f;
      assert cs[j] == RemovedSymbol(p, f);
      assert (symbols + cs)[|symbols| + j] == cs[j];
      assert (breaking + bs)[|breaking| + j] == bs[j];
    }
  }

  /** A base file the head lacks has all its removals gathered and is
      affected. */
  lemma {:induction false} RemovedFilesCover(t: Tally, bl: seq<AnalysisResult>, hm: map<string, AnalysisResult>, k: nat)
    requires k < |bl| && bl[k].fileInfo.path !in hm
    ensures RemovalsIn(RemovedFiles(t, bl, hm), bl[k])
    ensures bl[k].fileInfo.path in RemovedFiles(t, bl, hm).affected
    decreases |bl|
  {
    var t' := if bl[0].fileInfo.path in hm then t else RemovedFile(t, bl[0]);
    if k == 0 {
      RemovedFileGathers(t, bl[0]);
      RemovedFilesGrows(t', bl[1..], hm);
      GrowsKeeps(t', RemovedFiles(t', bl[1..], hm));
    } else {
      assert bl[1..][k - 1] == bl[k];
      RemovedFilesCover(t', bl[1..], hm, k - 1);
    }
  }

  lemma {:induction false} HeadFileGathers(t: Tally, r: AnalysisResult, bm: map<string, AnalysisResult>, accumulated: bool)
    ensures var u := HeadFile(t, r, bm, accumulated);
            r.fileInfo.path !in bm ==> AdditionsIn(u, r) && r.fileInfo.path in u.affected
    ensures r.fileInfo.path in bm ==>
              ChangesIn(HeadFile(t, r, bm, accumulated), CompareFileResults(bm[r.fileInfo.path], r))
  {
    var p := r.fileInfo.path;
    if p !in bm {
      AppendedAdditions(t.symbols, MapSeq(Addition(p), r.functions), r);
    } else {
      var changes := CompareFileResults(bm[p], r);
      AppendedChanges(t.symbols, t.breaking, changes);
    }
  }

  lemma {:induction false} AppendedAdditions(symbols: seq<ChangedSymbol>, cs: seq<ChangedSymbol>, r: AnalysisResult)
    requires cs == MapSeq(Addition(r.fileInfo.path), r.functions)
    ensures forall f :: f in r.functions ==> AddedSymbol(r.fileInfo.path, f) in symbols + cs
  {
    forall f | f in r.functions ensures AddedSymbol(r.fileInfo.path, f) in symbols + cs {
      var j :| 0 <= j < |r.functions| && r.functions[j] == f;
      assert (symbols + cs)[|symbols| + j] == cs[j];
    }
  }

  lemma {:induction false} AppendedChanges(symbols: seq<ChangedSymbol>, breaking: seq<BreakingChange>, changes: seq<ChangedSymbol>)
    ensures forall c :: c in changes ==>
              c in symbols + changes
              && (c.breakingChange ==> EntryBreak(c) in breaking + MapSeq(EntryBreak, Filter(IsBreakingSymbol, changes)))
  {
    var bs := Filter(IsBreakingSymbol, changes);
    var es := MapSeq(EntryBreak, bs);
    forall c | c in changes ensures c in symbols + changes && (c.breakingChange ==> EntryBreak(c) in breaking + es) {
      if c.breakingChange {
        FilterKeeps(IsBreakingSymbol, changes, c);
        var i :| 0 <= i < |bs| && bs[i] == c;
        assert (breaking + es)[|breaking| + i] == es[i];
      }
    }
  }

  /** A head file the base lacks has all its additions gathered and is
      affected; a file both have has all its changes gathered. */
  lemma {:induction false} HeadFilesCover(t: Tally, hl: seq<AnalysisResult>, bm: map<string, AnalysisResult>,
                                          accumulated: bool, k: nat)
    requires k < |hl|
    ensures var u := HeadFiles(t, hl, bm, accumulated);
            hl[k].fileInfo.path !in bm ==> AdditionsIn(u, hl[k]) && hl[k].fileInfo.path in u.affected
    ensures hl[k].fileInfo.path in bm ==>
              ChangesIn(HeadFiles(t, hl, bm, accumulated), CompareFileResults(bm[hl[k].fileInfo.path], hl[k]))
    decreases |hl|
  {
    var t' := HeadFile(t, hl[0], bm, accumulated);
    if k == 0 {
      HeadFileGathers(t, hl[0], bm, accumulated);
      HeadFilesGrows(t', hl[1..], bm, accumulated);
      GrowsKeeps(t', HeadFiles(t', hl[1..], bm, accumulated));
    } else {
      assert hl[1..][k - 1] == hl[k];
      HeadFilesCover(t', hl[1..], bm, accumulated, k - 1);
    }
  }

  function EmptyTally(): Tally {
    Tally([], [], {})
  }

  /** The tally after the first loop of a comparison. */
  function AfterRemovals(base: seq<AnalysisResult>, head: seq<AnalysisResult>): Tally {
    RemovedFiles(EmptyTally(), LastByKey(base, ResultPath), CollectByKey(head, ResultPath))
  }

  lemma {:induction false} CompareSnapshotsParts(base: seq<AnalysisResult>, head: seq<AnalysisResult>, accumulated: bool)
    ensures var u := HeadFiles(AfterRemovals(base, head), LastByKey(head, ResultPath), CollectByKey(base, ResultPath), accumulated);
            CompareSnapshots(base, head, accumulated) == ImpactOf(u)
  {
  }

  /** A file only the base has: every function of its (last) snapshot is
      reported removed, with a breaking-change record, and the file is
      affected. */
  lemma {:induction false} CompareRemovedFile(base: seq<AnalysisResult>, head: seq<AnalysisResult>,
                                              accumulated: bool, n: string)
    requires n in CollectByKey(base, ResultPath) && n !in CollectByKey(head, ResultPath)
    ensures var r := CompareSnapshots(base, head, accumulated);
            var b := CollectByKey(base, ResultPath)[n];
            && n in r.affectedFiles
            && (forall f :: f in b.functions ==>
                  RemovedSymbol(n, f) in r.changedSymbols && RemovedBreak(RemovedSymbol(n, f)) in r.breakingChanges)
  {
    var bl := LastByKey(base, ResultPath);
    var hm := CollectByKey(head, ResultPath);
    var b := CollectByKey(base, ResultPath)[n];
    var k :| 0 <= k < |bl| && bl[k] == b;
    RemovedFilesCover(EmptyTally(), bl, hm, k);
    var t := AfterRemovals(base, head);
    var u := HeadFiles(t, LastByKey(head, ResultPath), CollectByKey(base, ResultPath), accumulated);
    HeadFilesGrows(t, LastByKey(head, ResultPath), CollectByKey(base, ResultPath), accumulated);
    GrowsKeeps(t, u);
    CompareSnapshotsParts(base, head, accumulated);
  }

  /** A file only the head has: every function of its (last) snapshot is
      reported added and the file is affected. */
  lemma {:induction false} CompareAddedFile(base: seq<AnalysisResult>, head: seq<AnalysisResult>,
                                            accumulated: bool, n: string)
    requires n !in CollectByKey(base, ResultPath) && n in CollectByKey(head, ResultPath)
    ensures var r := CompareSnapshots(base, head, accumulated);
            var h := CollectByKey(head, ResultPath)[n];
            n in r.affectedFiles && forall f :: f in h.functions ==> AddedSymbol(n, f) in r.changedSymbols
  {
    var hl := LastByKey(head, ResultPath);
    var h := CollectByKey(head, ResultPath)[n];
    var k :| 0 <= k < |hl| && hl[k] == h;
    HeadFilesCover(AfterRemovals(base, head), hl, CollectByKey(base, ResultPath), accumulated, k);
    CompareSnapshotsParts(base, head, accumulated);
  }

  /** A file both have: every entry of its file comparison is reported,
      a breaking one with its breaking-change record. */
  lemma {:induction false} CompareCommonFile(base: seq<AnalysisResult>, head: seq<AnalysisResult>,
                                             accumulated: bool, n: string)
    requires n in CollectByKey(base, ResultPath) && n in CollectByKey(head, ResultPath)
    ensures var r := CompareSnapshots(base, head, accumulated);
            var cs := CompareFileResults(CollectByKey(base, ResultPath)[n], CollectByKey(head, ResultPath)[n]);
            forall c :: c in cs ==> c in r.changedSymbols && (c.breakingChange ==> EntryBreak(c) in r.breakingChanges)
  {
    var hl := LastByKey(head, ResultPath);
    var h := CollectByKey(head, ResultPath)[n];
    var k :| 0 <= k < |hl| && hl[k] == h;
    HeadFilesCover(AfterRemovals(base, head), hl, CollectByKey(base, ResultPath), accumulated, k);
    CompareSnapshotsParts(base, head, accumulated);
  }

  // ---------------------------------------------------------------------------
  // Risk of a comparison
  // ---------------------------------------------------------------------------

  /** A comparison entry is either High and breaking or Low and not. */
  predicate Banded(c: ChangedSymbol) {
    (c.riskLevel == High && c.breakingChange) || (c.riskLevel == Low && !c.breakingChange)
  }

  /** Every gathered entry is banded and each breaking one has exactly one
      record. */
  predicate Consistent(t: Tally) {
    && (forall k :: 0 <= k < |t.symbols| ==> Banded(t.symbols[k]))
    && |t.breaking| == CountWhere(IsBreakingSymbol, t.symbols)
  }

  lemma {:induction false} AppendConsistent(t: Tally, cs: seq<ChangedSymbol>, bs: seq<BreakingChange>)
    requires Consistent(t)
    requires forall k :: 0 <= k < |cs| ==> Banded(cs[k])
    requires |bs| == CountWhere(IsBreakingSymbol, cs)
    ensures Consistent(Tally(t.symbols + cs, t.breaking + bs, t.affected))
  {
    CountWhereAppend(IsBreakingSymbol, t.symbols, cs);
    var s := t.symbols + cs;
    assert forall k :: |t.symbols| <= k < |s| ==> s[k] == cs[k - |t.symbols|];
  }

  lemma {:induction false} RemovedFileConsistent(t: Tally, r: AnalysisResult)
    requires Consistent(t)
    ensures Consistent(RemovedFile(t, r))
  {
    var cs := MapSeq(Removal(r.fileInfo.path), r.functions);
    CountWhereAll(IsBreakingSymbol, cs);
    AppendConsistent(t, cs, MapSeq(RemovedBreak, cs));
  }

  lemma {:induction false} HeadFileConsistent(t: Tally, r: AnalysisResult, bm: map<string, AnalysisResult>, accumulated: bool)
    requires Consistent(t)
    ensures Consistent(HeadFile(t, r, bm, accumulated))
  {
    var p := r.fileInfo.path;
    if p in bm {
      var changes := CompareFileResults(bm[p], r);
      ChangesBanded(bm[p], r);
      AppendConsistent(t, changes, MapSeq(EntryBreak, Filter(IsBreakingSymbol, changes)));
    } else {
      var cs := MapSeq(Addition(p), r.functions);
      FilterNone(IsBreakingSymbol, cs);
      AppendConsistent(t, cs, []);
    }
  }

  lemma {:induction false} ChangesBanded(base: AnalysisResult, head: AnalysisResult)
    ensures var cs := CompareFileResults(base, head);
            forall k :: 0 <= k < |cs| ==> Banded(cs[k])
  {
    var cs := CompareFileResults(base, head);
    CompareFileSpec(base, head);
    assert forall k :: 0 <= k < |cs| ==> cs[k] in cs;
  }

  lemma {:induction false} RemovedFilesConsistent(t: Tally, bl: seq<AnalysisResult>, hm: map<string, AnalysisResult>)
    requires Consistent(t)
    ensures Consistent(RemovedFiles(t, bl, hm))
    decreases |bl|
  {
    if |bl| > 0 {
      if bl[0].fileInfo.path !in hm {
        RemovedFileConsistent(t, bl[0]);
      }
      RemovedFilesConsistent(if bl[0].fileInfo.path in hm then t else RemovedFile(t, bl[0]), bl[1..], hm);
    }
  }

  lemma {:induction false} HeadFilesConsistent(t: Tally, hl: seq<AnalysisResult>, bm: map<string, AnalysisResult>, accumulated: bool)
    requires Consistent(t)
    ensures Consistent(HeadFiles(t, hl, bm, accumulated))
    decreases |hl|
  {
    if |hl| > 0 {
      HeadFileConsistent(t, hl[0], bm, accumulated);
      HeadFilesConsistent(HeadFile(t, hl[0], bm, accumulated), hl[1..], bm, accumulated);
    }
  }

  /** The risk of a comparison: every breaking entry has one record, the
      High entries are exactly the breaking ones and none is Medium, so the
      rating is High above five breaking changes, Medium from one to five
      and Low with none. */
  lemma {:induction false} CompareRisk(base: seq<AnalysisResult>, head: seq<AnalysisResult>, accumulated: bool)
    ensures var r := CompareSnapshots(base, head, accumulated);
            |r.breakingChanges| == CountWhere(IsBreakingSymbol, r.changedSymbols)
    ensures var r := CompareSnapshots(base, head, accumulated);
            r.riskAssessment.highRiskCount == |r.breakingChanges| && r.riskAssessment.mediumRiskCount == 0
    ensures var r := CompareSnapshots(base, head, accumulated);
            && (r.riskAssessment.overallRisk == High <==> |r.breakingChanges| > 5)
            && (r.riskAssessment.overallRisk == Medium <==> 1 <= |r.breakingChanges| <= 5)
            && (r.riskAssessment.overallRisk == Low <==> |r.breakingChanges| == 0)
  {
    var t := AfterRemovals(base, head);
    RemovedFilesConsistent(EmptyTally(), LastByKey(base, ResultPath), CollectByKey(head, ResultPath));
    var u := HeadFiles(t, LastByKey(head, ResultPath), CollectByKey(base, ResultPath), accumulated);
    HeadFilesConsistent(t, LastByKey(head, ResultPath), CollectByKey(base, ResultPath), accumulated);
    CompareSnapshotsParts(base, head, accumulated);
    TallyRisk(u);
  }

  lemma {:induction false} TallyRisk(u: Tally)
    requires Consistent(u)
    ensures var a := ImpactOf(u).riskAssessment;
            && a.highRiskCount == |u.breaking| && a.mediumRiskCount == 0
            && (a.overallRisk == High <==> |u.breaking| > 5)
            && (a.overallRisk == Medium <==> 1 <= |u.breaking| <= 5)
            && (a.overallRisk == Low <==> |u.breaking| == 0)
  {
    CountWhereSame(HasRisk(High), IsBreakingSymbol, u.symbols);
    FilterNone(HasRisk(Medium), u.symbols);
  }

  // ---------------------------------------------------------------------------
  // Affected files
  // ---------------------------------------------------------------------------

  lemma {:induction false} RemovedFilesWithin(t: Tally, bl: seq<AnalysisResult>, hm: map<string, AnalysisResult>, paths: set<string>)
    requires t.affected <= paths
    requires forall k :: 0 <= k < |bl| ==> bl[k].fileInfo.path in paths
    ensures RemovedFiles(t, bl, hm).affected <= paths
    decreases |bl|
  {
    if |bl| > 0 {
      assert forall k :: 0 <= k < |bl[1..]| ==> bl[1..][k] == bl[k + 1];
      RemovedFilesWithin(if bl[0].fileInfo.path in hm then t else RemovedFile(t, bl[0]), bl[1..], hm, paths);
    }
  }

  lemma {:induction false} HeadFilesWithin(t: Tally, hl: seq<AnalysisResult>, bm: map<string, AnalysisResult>,
                                           accumulated: bool, paths: set<string>)
    requires t.affected <= paths
    requires forall k :: 0 <= k < |hl| ==> hl[k].fileInfo.path in paths
    ensures HeadFiles(t, hl, bm, accumulated).affected <= paths
    decreases |hl|
  {
    if |hl| > 0 {
      assert forall k :: 0 <= k < |hl[1..]| ==> hl[1..][k] == hl[k + 1];
      HeadFilesWithin(HeadFile(t, hl[0], bm, accumulated), hl[1..], bm, accumulated, paths);
    }
  }

  /** Only files of the two snapshots are affected. */
  lemma {:induction false} AffectedWithin(base: seq<AnalysisResult>, head: seq<AnalysisResult>, accumulated: bool)
    ensures forall p :: p in CompareSnapshots(base, head, accumulated).affectedFiles ==>
              p in CollectByKey(base, ResultPath) || p in CollectByKey(head, ResultPath)
  {
    var paths := CollectByKey(base, ResultPath).Keys + CollectByKey(head, ResultPath).Keys;
    RemovedFilesWithin(EmptyTally(), LastByKey(base, ResultPath), CollectByKey(head, ResultPath), paths);
    HeadFilesWithin(AfterRemovals(base, head), LastByKey(head, ResultPath), CollectByKey(base, ResultPath), accumulated, paths);
    CompareSnapshotsParts(base, head, accumulated);
  }

  /** The first loop never marks a file the head has. */
  lemma {:induction false} RemovedFilesSkip(t: Tally, bl: seq<AnalysisResult>, hm: map<string, AnalysisResult>, p: string)
    requires p in hm
    ensures p in RemovedFiles(t, bl, hm).affected <==> p in t.affected
    decreases |bl|
  {
    if |bl| > 0 {
      RemovedFilesSkip(if bl[0].fileInfo.path in hm then t else RemovedFile(t, bl[0]), bl[1..], hm, p);
    }
  }

  /** The second loop marks only the files it visits. */
  lemma {:induction false} HeadFilesSkip(t: Tally, hl: seq<AnalysisResult>, bm: map<string, AnalysisResult>,
                                         accumulated: bool, p: string)
    requires forall k :: 0 <= k < |hl| ==> hl[k].fileInfo.path != p
    ensures p in HeadFiles(t, hl, bm, accumulated).affected <==> p in t.affected
    decreases |hl|
  {
    if |hl| > 0 {
      assert forall k :: 0 <= k < |hl[1..]| ==> hl[1..][k] == hl[k + 1];
      HeadFileMarks(t, hl[0], bm, accumulated);
      HeadFilesSkip(HeadFile(t, hl[0], bm, accumulated), hl[1..], bm, accumulated, p);
    }
  }

  /** One head file marks only its own path; in the corrected loop a file
      both snapshots have is marked by its own changes. */
  lemma {:induction false} HeadFileMarks(t: Tally, r: AnalysisResult, bm: map<string, AnalysisResult>, accumulated: bool)
    ensures forall p :: p != r.fileInfo.path ==> (p in HeadFile(t, r, bm, accumulated).affected <==> p in t.affected)
    ensures r.fileInfo.path in bm && !accumulated ==>
              (r.fileInfo.path in HeadFile(t, r, bm, accumulated).affected
               <==> r.fileInfo.path in t.affected || CompareFileResults(bm[r.fileInfo.path], r) != [])
  {
  }

  /** In the corrected loop a file both snapshots have is marked by its own
      changes alone. */
  lemma {:induction false} HeadFilesOwnChanges(t: Tally, hl: seq<AnalysisResult>, bm: map<string, AnalysisResult>, k: nat)
    requires k < |hl| && hl[k].fileInfo.path in bm
    requires forall i, j :: 0 <= i < j < |hl| ==> hl[i].fileInfo.path != hl[j].fileInfo.path
    ensures var p := hl[k].fileInfo.path;
            p in HeadFiles(t, hl, bm, false).affected <==> p in t.affected || CompareFileResults(bm[p], hl[k]) != []
    decreases |hl|
  {
    var t' := HeadFile(t, hl[0], bm, false);
    var rest := hl[1..];
    assert forall j :: 0 <= j < |rest| ==> rest[j] == hl[j + 1];
    HeadFileMarks(t, hl[0], bm, false);
    if k == 0 {
      HeadFilesSkip(t', rest, bm, false, hl[0].fileInfo.path);
    } else {
      HeadFilesOwnChanges(t', rest, bm, k - 1);
    }
  }

  /** With the correction, a file both snapshots have is affected exactly
      when its own comparison reports a change. */
  lemma {:induction false} FixedAffectedExactly(base: seq<AnalysisResult>, head: seq<AnalysisResult>, n: string)
    requires n in CollectByKey(base, ResultPath) && n in CollectByKey(head, ResultPath)
    ensures n in CompareAnalysisFixed(base, head).affectedFiles
        <==> CompareFileResults(CollectByKey(base, ResultPath)[n], CollectByKey(head, ResultPath)[n]) != []
  {
    var hl := LastByKey(head, ResultPath);
    var h := CollectByKey(head, ResultPath)[n];
    var k :| 0 <= k < |hl| && hl[k] == h;
    RemovedFilesSkip(EmptyTally(), LastByKey(base, ResultPath), CollectByKey(head, ResultPath), n);
    HeadFilesOwnChanges(AfterRemovals(base, head), hl, CollectByKey(base, ResultPath), k);
    CompareSnapshotsParts(base, head, false);
  }

  /** One head file only adds; as written, it is marked once anything has
      been gathered. */
  lemma {:induction false} HeadFileStep(t: Tally, r: AnalysisResult, bm: map<string, AnalysisResult>, accumulated: bool)
    ensures Grows(t, HeadFile(t, r, bm, accumulated))
    ensures accumulated && |t.symbols| > 0 && r.fileInfo.path in bm ==>
              r.fileInfo.path in HeadFile(t, r, bm, accumulated).affected
  {
  }

  /** As written, once anything has been gathered every later file both
      snapshots have is marked. */
  lemma {:induction false} HeadFilesMarkAfterChange(t: Tally, hl: seq<AnalysisResult>, bm: map<string, AnalysisResult>, k: nat)
    requires |t.symbols| > 0 && k < |hl| && hl[k].fileInfo.path in bm
    ensures hl[k].fileInfo.path in HeadFiles(t, hl, bm, true).affected
    decreases |hl|
  {
    var t' := HeadFile(t, hl[0], bm, true);
    HeadFileStep(t, hl[0], bm, true);
    if k == 0 {
      HeadFilesGrows(t', hl[1..], bm, true);
    } else {
      assert hl[1..][k - 1] == hl[k];
      HeadFilesMarkAfterChange(t', hl[1..], bm, k - 1);
    }
  }

  /** As written, a file both snapshots have is marked affected whenever a
      removed file had a function, whether or not the file itself changed. */
  lemma {:induction false} AsWrittenMarksCommonFiles(base: seq<AnalysisResult>, head: seq<AnalysisResult>, n: string, m: string)
    requires n in CollectByKey(base, ResultPath) && n in CollectByKey(head, ResultPath)
    requires m in CollectByKey(base, ResultPath) && m !in CollectByKey(head, ResultPath)
    requires CollectByKey(base, ResultPath)[m].functions != []
    ensures n in CompareAnalysisResults(base, head).affectedFiles
  {
    var bm := CollectByKey(base, ResultPath);
    var f := bm[m].functions[0];
    CompareRemovedFile(base, head, true, m);
    var bl := LastByKey(base, ResultPath);
    var j :| 0 <= j < |bl| && bl[j] == bm[m];
    RemovedFilesCover(EmptyTally(), bl, CollectByKey(head, ResultPath), j);
    var t := AfterRemovals(base, head);
    assert RemovedSymbol(m, f) in t.symbols;
    var hl := LastByKey(head, ResultPath);
    var k :| 0 <= k < |hl| && hl[k] == CollectByKey(head, ResultPath)[n];
    HeadFilesMarkAfterChange(t, hl, bm, k);
    CompareSnapshotsParts(base, head, true);
  }

  /** The discrepancy: a file that is the same in both snapshots, next to a
      removed file with a function, is reported affected as written and not
      with the correction. */
  lemma {:induction false} UnchangedFileMarkedAffected(gone: AnalysisResult, kept: AnalysisResult)
    requires gone.fileInfo.path != kept.fileInfo.path && gone.functions != []
    ensures var base := [gone, kept];
            var head := [kept];
            && CompareFileResults(kept, kept) == []
            && kept.fileInfo.path in CompareAnalysisResults(base, head).affectedFiles
            && kept.fileInfo.path !in CompareAnalysisFixed(base, head).affectedFiles
  {
    var base := [gone, kept];
    var head := [kept];
    var bm := CollectByKey(base, ResultPath);
    var hm := CollectByKey(head, ResultPath);
    var n := kept.fileInfo.path;
    var m := gone.fileInfo.path;
    assert ResultPath(base[0]) == m && ResultPath(base[1]) == n && ResultPath(head[0]) == n;
    assert bm[m] == gone && bm[n] == kept && hm[n] == kept;
    assert m !in hm;
    CompareFileSelf(kept);
    AsWrittenMarksCommonFiles(base, head, n, m);
    FixedAffectedExactly(base, head, n);
  }

  // ---------------------------------------------------------------------------
  // A directory compared with itself
  // ---------------------------------------------------------------------------

  lemma {:induction false} RemovedFilesNone(t: Tally, bl: seq<AnalysisResult>, hm: map<string, AnalysisResult>)
    requires forall k :: 0 <= k < |bl| ==> bl[k].fileInfo.path in hm
    ensures RemovedFiles(t, bl, hm) == t
    decreases |bl|
  {
    if |bl| > 0 {
      assert forall k :: 0 <= k < |bl[1..]| ==> bl[1..][k] == bl[k + 1];
      RemovedFilesNone(t, bl[1..], hm);
    }
  }

  lemma {:induction false} HeadFileSelf(t: Tally, r: AnalysisResult, bm: map<string, AnalysisResult>, accumulated: bool)
    requires t.symbols == [] && r.fileInfo.path in bm && bm[r.fileInfo.path] == r
    ensures HeadFile(t, r, bm, accumulated) == t
  {
    CompareFileSelf(r);
    assert Filter(IsBreakingSymbol, CompareFileResults(r, r)) == [];
    assert t.breaking + MapSeq(EntryBreak, []) == t.breaking;
  }

  lemma {:induction false} HeadFilesSelf(t: Tally, hl: seq<AnalysisResult>, bm: map<string, AnalysisResult>, accumulated: bool)
    requires t.symbols == []
    requires forall k :: 0 <= k < |hl| ==> hl[k].fileInfo.path in bm && bm[hl[k].fileInfo.path] == hl[k]
    ensures HeadFiles(t, hl, bm, accumulated) == t
    decreases |hl|
  {
    if |hl| > 0 {
      HeadFileSelf(t, hl[0], bm, accumulated);
      assert forall k :: 0 <= k < |hl[1..]| ==> hl[1..][k] == hl[k + 1];
      HeadFilesSelf(t, hl[1..], bm, accumulated);
    }
  }

  /** A directory compared with itself has no changes, no breaking changes,
      no affected file, and Low risk. */
  lemma {:induction false} CompareSnapshotsSelf(rs: seq<AnalysisResult>, accumulated: bool)
    ensures var r := CompareSnapshots(rs, rs, accumulated);
            r.changedSymbols == [] && r.breakingChanges == [] && r.affectedFiles == {}
    ensures CompareSnapshots(rs, rs, accumulated).riskAssessment.overallRisk == Low
  {
    var m := CollectByKey(rs, ResultPath);
    var l := LastByKey(rs, ResultPath);
    RemovedFilesNone(EmptyTally(), l, m);
    HeadFilesSelf(EmptyTally(), l, m, accumulated);
    CompareSnapshotsParts(rs, rs, accumulated);
  }
}
