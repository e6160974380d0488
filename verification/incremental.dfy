/** The change detector of incremental analysis (`src/core/incremental.rs`,
    copied verbatim into `nekoinc/src/incremental.rs`) and the summary the
    workspace tool builds from it. Scanning the disk is not modelled: a scan
    is a map from relative path to the metadata read for it, and hashes and
    modification times are opaque values. */
module Incremental {
  import opened Wrappers
  import opened Strs
  import opened Seqs
  import opened Paths
  import opened Langs
  import SharedTypes

  datatype Metadata = Metadata(path: string, modifiedTime: int, contentHash: string, size: nat)

  /** `FileMetadata::has_changed`: content hash, modification time or size
      differ. The recorded path is not compared. */
  predicate HasChanged(a: Metadata, b: Metadata)
    ensures HasChanged(a, b) <==> a.(path := b.path) != b
    ensures HasChanged(a, b) <==> b.(path := a.path) != a
  {
    a.contentHash != b.contentHash || a.modifiedTime != b.modifiedTime || a.size != b.size
  }

  datatype ChangeType = Added | Modified | Deleted

  datatype FileChange = FileChange(
    path: string,
    changeType: ChangeType,
    previous: Option<Metadata>,
    current: Option<Metadata>)

  /** A scan: relative path to the metadata read for it. */
  type Snapshot = map<string, Metadata>

  /** What `detect_changes` may report for a path: a new path is Added, a
      path whose metadata changed is Modified, a vanished path is Deleted,
      each with the metadata on either side. */
  predicate Classified(cache: Snapshot, current: Snapshot, c: FileChange) {
    match c.changeType
    case Added =>
      c.path in current && c.path !in cache
      && c.previous.None? && c.current == Some(current[c.path])
    case Modified =>
      c.path in current && c.path in cache && HasChanged(current[c.path], cache[c.path])
      && c.previous == Some(cache[c.path]) && c.current == Some(current[c.path])
    case Deleted =>
      c.path in cache && c.path !in current
      && c.previous == Some(cache[c.path]) && c.current.None?
  }

  /** A path `detect_changes` has to report. */
  predicate Reported(cache: Snapshot, current: Snapshot, p: string) {
    (p in current && (p !in cache || HasChanged(current[p], cache[p])))
    || (p in cache && p !in current)
  }

  predicate DistinctPaths(cs: seq<FileChange>) {
    forall i, j :: 0 <= i < j < |cs| ==> cs[i].path != cs[j].path
  }

  /** `ChangeDetector::detect_changes` after the scan: every path of the scan
      is compared with the cache, then every cached path missing from the
      scan is reported, and the cache becomes the scan. The order in which
      the maps are walked is unspecified, and so is the order of the result. */
  method DetectChanges(cache: Snapshot, current: Snapshot)
    returns (changes: seq<FileChange>, newCache: Snapshot)
    ensures forall k :: 0 <= k < |changes| ==> Classified(cache, current, changes[k])
    ensures forall p :: Reported(cache, current, p) <==> exists k :: 0 <= k < |changes| && changes[k].path == p
    ensures DistinctPaths(changes)
    ensures newCache == current
  {
    changes := ScanCurrent(cache, current);
    changes := ScanCache(cache, current, changes);
    newCache := current;
  }

  /** The first loop of `detect_changes`: Added and Modified changes for the
      paths of the scan. */
  method ScanCurrent(cache: Snapshot, current: Snapshot) returns (changes: seq<FileChange>)
    ensures forall k :: 0 <= k < |changes| ==>
      Classified(cache, current, changes[k]) && changes[k].path in current
    ensures forall p :: p in current && Reported(cache, current, p) ==>
      exists k :: 0 <= k < |changes| && changes[k].path == p
    ensures DistinctPaths(changes)
  {
    changes := [];
    var todo := current.Keys;
    while todo != {}
      invariant todo <= current.Keys
      invariant forall k :: 0 <= k < |changes| ==>
        Classified(cache, current, changes[k]) && changes[k].path in current.Keys - todo
      invariant forall p :: p in current.Keys - todo && Reported(cache, current, p) ==>
        exists k :: 0 <= k < |changes| && changes[k].path == p
      invariant DistinctPaths(changes)
      decreases todo
    {
      var p :| p in todo;
      ghost var before := changes;
      if p in cache {
        if HasChanged(current[p], cache[p]) {
          changes := changes + [FileChange(p, Modified, Some(cache[p]), Some(current[p]))];
        }
      } else {
        changes := changes + [FileChange(p, Added, None, Some(current[p]))];
      }
      todo := todo - {p};
      forall q | q in current.Keys - todo && Reported(cache, current, q)
        ensures exists k :: 0 <= k < |changes| && changes[k].path == q
      {
        if q == p {
          assert changes[|changes| - 1].path == p;
        } else {
          var k :| 0 <= k < |before| && before[k].path == q;
          assert changes[k] == before[k];
        }
      }
    }
  }

  /** The second loop of `detect_changes`: a Deleted change for every cached
      path missing from the scan, after the changes found so far. */
  method ScanCache(cache: Snapshot, current: Snapshot, found: seq<FileChange>) returns (changes: seq<FileChange>)
    requires forall k :: 0 <= k < |found| ==> Classified(cache, current, found[k]) && found[k].path in current
    requires forall p :: p in current && Reported(cache, current, p) ==>
      exists k :: 0 <= k < |found| && found[k].path == p
    requires DistinctPaths(found)
    ensures forall k :: 0 <= k < |changes| ==> Classified(cache, current, changes[k])
    ensures forall p :: Reported(cache, current, p) <==> exists k :: 0 <= k < |changes| && changes[k].path == p
    ensures DistinctPaths(changes)
  {
    changes := found;
    var gone := cache.Keys;
    while gone != {}
      invariant gone <= cache.Keys
      invariant forall k :: 0 <= k < |changes| ==>
        Classified(cache, current, changes[k])
        && (changes[k].path in current || changes[k].path in cache.Keys - gone)
      invariant forall p :: (p in current || p in cache.Keys - gone) && Reported(cache, current, p) ==>
        exists k :: 0 <= k < |changes| && changes[k].path == p
      invariant DistinctPaths(changes)
      decreases gone
    {
      var p :| p in gone;
      ghost var before := changes;
      if p !in current {
        changes := changes + [FileChange(p, Deleted, Some(cache[p]), None)];
      }
      gone := gone - {p};
      forall q | (q in current || q in cache.Keys - gone) && Reported(cache, current, q)
        ensures exists k :: 0 <= k < |changes| && changes[k].path == q
      {
        if q == p && q !in current {
          assert changes[|changes| - 1].path == p;
        } else {
          var k :| 0 <= k < |before| && before[k].path == q;
          assert changes[k] == before[k];
        }
      }
    }
    forall p | exists k :: 0 <= k < |changes| && changes[k].path == p
      ensures Reported(cache, current, p)
    {
      var k :| 0 <= k < |changes| && changes[k].path == p;
      assert Classified(cache, current, changes[k]);
    }
  }

  /** Nothing is reported exactly when the scan has the cached paths with
      unchanged metadata; in particular a second detection over an unchanged
      tree, whose cache is the previous scan, reports nothing. */
  lemma {:induction false} NoChangesIff(cache: Snapshot, current: Snapshot, changes: seq<FileChange>)
    requires forall p :: Reported(cache, current, p) <==> exists k :: 0 <= k < |changes| && changes[k].path == p
    ensures |changes| == 0 <==>
            current.Keys == cache.Keys && forall p :: p in current ==> !HasChanged(current[p], cache[p])
  {
    if |changes| > 0 {
      assert Reported(cache, current, changes[0].path);
    }
    if current.Keys != cache.Keys {
      if p :| p in current.Keys && p !in cache.Keys {
        assert Reported(cache, current, p);
      } else {
        var p :| p in cache.Keys && p !in current.Keys;
        assert Reported(cache, current, p);
      }
    }
    if p :| p in current && p in cache && HasChanged(current[p], cache[p]) {
      assert Reported(cache, current, p);
    }
  }

  /** What `detect_changes` promises about its result, as `DetectChanges`
      ensures it. */
  ghost predicate Detects(cache: Snapshot, current: Snapshot, changes: seq<FileChange>) {
    (forall k :: 0 <= k < |changes| ==> Classified(cache, current, changes[k]))
    && (forall p :: Reported(cache, current, p) <==> exists k :: 0 <= k < |changes| && changes[k].path == p)
    && DistinctPaths(changes)
  }

  /** The detector replaces its cache with the scan, so running it again
      over the same tree reports nothing. */
  lemma {:induction false} SecondScanQuiet(current: Snapshot, changes: seq<FileChange>)
    requires Detects(current, current, changes)
    ensures changes == []
  {
    NoChangesIff(current, current, changes);
  }

  /** When both sides hold at most the path `p` and `p` has to be reported,
      the detection is exactly one change for `p`. */
  lemma {:induction false} OnlyPath(cache: Snapshot, current: Snapshot, changes: seq<FileChange>, p: string)
    requires Detects(cache, current, changes)
    requires cache.Keys <= {p} && current.Keys <= {p}
    requires Reported(cache, current, p)
    ensures |changes| == 1 && changes[0].path == p
  {
    var k :| 0 <= k < |changes| && changes[k].path == p;
    forall j | 0 <= j < |changes| ensures changes[j].path == p {
      assert Classified(cache, current, changes[j]);
    }
    assert changes[0].path == changes[|changes| - 1].path == p;
  }

  /** One file added, then modified, then deleted: each detection reports
      exactly one change of the expected kind, carrying the metadata on
      either side. */
  lemma {:induction false} SingleFileLifecycle(p: string, m1: Metadata, m2: Metadata,
                                               c1: seq<FileChange>, c2: seq<FileChange>, c3: seq<FileChange>)
    requires HasChanged(m2, m1)
    requires Detects(map[], map[p := m1], c1)
    requires Detects(map[p := m1], map[p := m2], c2)
    requires Detects(map[p := m2], map[], c3)
    ensures c1 == [FileChange(p, Added, None, Some(m1))]
    ensures c2 == [FileChange(p, Modified, Some(m1), Some(m2))]
    ensures c3 == [FileChange(p, Deleted, Some(m2), None)]
  {
    OnlyPath(map[], map[p := m1], c1, p);
    assert Classified(map[], map[p := m1], c1[0]);
    OnlyPath(map[p := m1], map[p := m2], c2, p);
    assert Classified(map[p := m1], map[p := m2], c2[0]);
    OnlyPath(map[p := m2], map[], c3, p);
    assert Classified(map[p := m2], map[], c3[0]);
  }

  // ---------------------------------------------------------------------------
  // Counting the changes
  // ---------------------------------------------------------------------------

  function IsOfType(t: ChangeType): FileChange -> bool {
    (c: FileChange) => c.changeType == t
  }

  /** The paths of the changes of type `t`. */
  function PathsOfType(cs: seq<FileChange>, t: ChangeType): (r: set<string>)
    ensures forall q :: q in r <==> exists k :: 0 <= k < |cs| && cs[k].changeType == t && cs[k].path == q
    decreases |cs|
  {
    if |cs| == 0 then {}
    else
      var r := (if cs[0].changeType == t then {cs[0].path} else {}) + PathsOfType(cs[1..], t);
      assert forall k :: 1 <= k < |cs| ==> cs[k] == cs[1..][k - 1];
      assert forall q :: q in PathsOfType(cs[1..], t) ==>
        exists k :: 1 <= k < |cs| && cs[k].changeType == t && cs[k].path == q by {
        forall q | q in PathsOfType(cs[1..], t)
          ensures exists k :: 1 <= k < |cs| && cs[k].changeType == t && cs[k].path == q
        {
          var k :| 0 <= k < |cs[1..]| && cs[1..][k].changeType == t && cs[1..][k].path == q;
          assert cs[k + 1] == cs[1..][k];
        }
      }
      r
  }

  lemma {:induction false} CountIsPathCount(cs: seq<FileChange>, t: ChangeType)
    requires DistinctPaths(cs)
    ensures CountWhere(IsOfType(t), cs) == |PathsOfType(cs, t)|
    decreases |cs|
  {
    if |cs| > 0 {
      var rest := cs[1..];
      DistinctTail(cs);
      CountIsPathCount(rest, t);
      CountWhereCons(IsOfType(t), cs);
      PathsOfTypeCons(cs, t);
    }
  }

  /** The tail of changes with distinct paths has distinct paths, none of
      them the head's. */
  lemma {:induction false} DistinctTail(cs: seq<FileChange>)
    requires |cs| > 0 && DistinctPaths(cs)
    ensures DistinctPaths(cs[1..])
    ensures forall k :: 0 <= k < |cs| - 1 ==> cs[1..][k].path != cs[0].path
  {
    var rest := cs[1..];
    forall i, j | 0 <= i < j < |rest| ensures rest[i].path != rest[j].path {
      assert rest[i] == cs[i + 1] && rest[j] == cs[j + 1];
    }
    forall k | 0 <= k < |rest| ensures rest[k].path != cs[0].path {
      assert rest[k] == cs[k + 1];
    }
  }

  lemma {:induction false} CountWhereCons<T>(p: T -> bool, s: seq<T>)
    requires |s| > 0
    ensures CountWhere(p, s) == (if p(s[0]) then 1 else 0) + CountWhere(p, s[1..])
  {
    assert s == [s[0]] + s[1..];
    CountWhereAppend(p, [s[0]], s[1..]);
  }

  /** The head's path is new to the tail, so it adds one path exactly when
      it has the type. */
  lemma {:induction false} PathsOfTypeCons(cs: seq<FileChange>, t: ChangeType)
    requires |cs| > 0
    requires forall k :: 0 <= k < |cs| - 1 ==> cs[1..][k].path != cs[0].path
    ensures |PathsOfType(cs, t)| == (if cs[0].changeType == t then 1 else 0) + |PathsOfType(cs[1..], t)|
  {
    var rest := PathsOfType(cs[1..], t);
    assert cs[0].path !in rest;
  }

  /** The paths a change of type `t` has to be reported for. */
  function Expected(cache: Snapshot, current: Snapshot, t: ChangeType): set<string> {
    match t
    case Added => current.Keys - cache.Keys
    case Deleted => cache.Keys - current.Keys
    case Modified => set p | p in current && p in cache && HasChanged(current[p], cache[p])
  }

  lemma {:induction false} PathsOfTypeExpected(cache: Snapshot, current: Snapshot, changes: seq<FileChange>, t: ChangeType)
    requires forall k :: 0 <= k < |changes| ==> Classified(cache, current, changes[k])
    requires forall p :: Reported(cache, current, p) <==> exists k :: 0 <= k < |changes| && changes[k].path == p
    ensures PathsOfType(changes, t) == Expected(cache, current, t)
  {
    forall p | p in Expected(cache, current, t) ensures p in PathsOfType(changes, t) {
      assert Reported(cache, current, p);
      var k :| 0 <= k < |changes| && changes[k].path == p;
      assert Classified(cache, current, changes[k]);
    }
    forall p | p in PathsOfType(changes, t) ensures p in Expected(cache, current, t) {
      var k :| 0 <= k < |changes| && changes[k].changeType == t && changes[k].path == p;
      assert Classified(cache, current, changes[k]);
    }
  }

  /** The detector's counts: as many Added changes as new paths, as many
      Deleted changes as vanished paths, and as many Modified changes as kept
      paths whose metadata changed. */
  lemma {:induction false} DetectedCounts(cache: Snapshot, current: Snapshot, changes: seq<FileChange>)
    requires forall k :: 0 <= k < |changes| ==> Classified(cache, current, changes[k])
    requires forall p :: Reported(cache, current, p) <==> exists k :: 0 <= k < |changes| && changes[k].path == p
    requires DistinctPaths(changes)
    ensures CountWhere(IsOfType(Added), changes) == |current.Keys - cache.Keys|
    ensures CountWhere(IsOfType(Deleted), changes) == |cache.Keys - current.Keys|
    ensures CountWhere(IsOfType(Modified), changes)
            == |set p | p in current && p in cache && HasChanged(current[p], cache[p])|
  {
    CountIsPathCount(changes, Added);
    CountIsPathCount(changes, Deleted);
    CountIsPathCount(changes, Modified);
    PathsOfTypeExpected(cache, current, changes, Added);
    PathsOfTypeExpected(cache, current, changes, Deleted);
    PathsOfTypeExpected(cache, current, changes, Modified);
  }

  // ---------------------------------------------------------------------------
  // Source files
  // ---------------------------------------------------------------------------

  /** The extensions, lowercased, that the detector tracks. */
  const SourceExtensions: set<string> := {
    "js", "jsx", "mjs", "cjs", "ts", "tsx",
    "cpp", "cxx", "cc", "hpp", "hxx", "hh",
    "c", "h", "py", "pyw", "pyi", "cs", "go", "rs"}

  /** `ChangeDetector::is_source_file`: the path has an extension whose
      lowercase form is tracked. */
  predicate IsSourceFile(path: string) {
    Extension(path).Some? && IsSourceExtension(Extension(path).value)
  }

  predicate IsSourceExtension(ext: string) {
    Lower(ext) in SourceExtensions
  }

  /** The tracked extensions are exactly those the language table of the
      workspace recognises, except the "h++" and "c++" spellings. */
  lemma {:induction false} SourceExtensionIffKnown(ext: string)
    ensures IsSourceExtension(ext) <==>
            SharedTypes.FromExtension(ext) != Unknown && Lower(ext) !in {"h++", "c++"}
  {
    if IsSourceExtension(ext) {
      SourceImpliesKnown(ext);
    }
    if SharedTypes.FromExtension(ext) != Unknown && Lower(ext) !in {"h++", "c++"} {
      KnownImpliesSource(ext);
    }
  }

  lemma {:induction false} SourceImpliesKnown(ext: string)
    requires Lower(ext) in SourceExtensions
    ensures SharedTypes.FromExtension(ext) != Unknown && Lower(ext) !in {"h++", "c++"}
  {
  }

  lemma {:induction false} KnownImpliesSource(ext: string)
    requires SharedTypes.FromExtension(ext) != Unknown && Lower(ext) !in {"h++", "c++"}
    ensures Lower(ext) in SourceExtensions
  {
  }

  // ---------------------------------------------------------------------------
  // Summary
  // ---------------------------------------------------------------------------

  /** The estimated speedup as the quotient it is computed from: full time
      over incremental time, or exactly 1 when no time was measured. */
  datatype Speedup = Ratio(fullTimeMs: nat, analysisTimeMs: nat) | One

  datatype Summary = Summary(
    totalFiles: nat,
    changedFiles: nat,
    addedFiles: nat,
    deletedFiles: nat,
    analysisTimeMs: nat,
    speedup: Speedup)

  lemma {:induction false} CountsPartition(cs: seq<FileChange>)
    ensures CountWhere(IsOfType(Modified), cs) + CountWhere(IsOfType(Added), cs)
            + CountWhere(IsOfType(Deleted), cs) == |cs|
    decreases |cs|
  {
    if |cs| > 0 {
      CountsPartition(cs[1..]);
      assert cs == [cs[0]] + cs[1..];
      CountWhereAppend(IsOfType(Modified), [cs[0]], cs[1..]);
      CountWhereAppend(IsOfType(Added), [cs[0]], cs[1..]);
      CountWhereAppend(IsOfType(Deleted), [cs[0]], cs[1..]);
    }
  }

  /** `IncrementalSummary::new`. */
  function NewSummary(totalFiles: nat, changes: seq<FileChange>, analysisTimeMs: nat, fullTimeMs: nat)
    : (s: Summary)
    ensures s.changedFiles == CountWhere(IsOfType(Modified), changes)
    ensures s.addedFiles == CountWhere(IsOfType(Added), changes)
    ensures s.deletedFiles == CountWhere(IsOfType(Deleted), changes)
    ensures s.changedFiles + s.addedFiles + s.deletedFiles == |changes|
    ensures s.totalFiles == totalFiles && s.analysisTimeMs == analysisTimeMs
    ensures s.speedup.One? <==> analysisTimeMs == 0
  {
    CountsPartition(changes);
    Summary(
      totalFiles,
      CountWhere(IsOfType(Modified), changes),
      CountWhere(IsOfType(Added), changes),
      CountWhere(IsOfType(Deleted), changes),
      analysisTimeMs,
      if analysisTimeMs > 0 then Ratio(fullTimeMs, analysisTimeMs) else One)
  }

  /** The line markers of `format_summary`: none in the analysis engine, an
      emoji and a space per line in the workspace tool. */
  const PlainMarks: seq<string> := ["", "", ""]
  const EmojiMarks: seq<string> := ["\U{26A1} ", "\U{1F4CA} ", "\U{1F4C1} "]

  lemma {:induction false} DigitsNoNewline(n: nat)
    ensures '\n' !in NatToString(n)
  {
    var d := NatToString(n);
    assert forall k :: 0 <= k < |d| ==> IsAsciiDigit(d[k]);
  }

  /** The first line of `format_summary`. */
  function UpdatedLine(s: Summary, speedupText: string, mark: string): (l: string)
    requires '\n' !in mark && '\n' !in speedupText
    ensures '\n' !in l
    ensures StartsWith(l, mark + "Updated " + NatToString(s.changedFiles + s.addedFiles) + " files")
  {
    DigitsNoNewline(s.changedFiles + s.addedFiles);
    DigitsNoNewline(s.analysisTimeMs);
    var head := mark + "Updated " + NatToString(s.changedFiles + s.addedFiles) + " files";
    head + (" in " + NatToString(s.analysisTimeMs) + "ms (" + speedupText + "x speedup)")
  }

  /** The second line of `format_summary`. */
  function ChangesLine(s: Summary, mark: string): (l: string)
    requires '\n' !in mark
    ensures '\n' !in l
  {
    DigitsNoNewline(s.changedFiles);
    DigitsNoNewline(s.addedFiles);
    DigitsNoNewline(s.deletedFiles);
    mark + "Changes: " + NatToString(s.changedFiles) + " modified, "
    + NatToString(s.addedFiles) + " added, " + NatToString(s.deletedFiles) + " deleted"
  }

  /** The third line of `format_summary`. */
  function TotalLine(s: Summary, mark: string): (l: string)
    requires '\n' !in mark
    ensures '\n' !in l
    ensures EndsWith(l, NatToString(s.totalFiles))
  {
    DigitsNoNewline(s.totalFiles);
    (mark + "Total files in session: ") + NatToString(s.totalFiles)
  }

  /** `IncrementalSummary::format_summary`; the speedup, printed with one
      decimal, is given as text. The output has three lines: the first
      reports modified plus added files, the last the total. */
  function FormatSummary(s: Summary, speedupText: string, marks: seq<string>): (r: string)
    requires |marks| == 3
    requires forall k :: 0 <= k < 3 ==> '\n' !in marks[k]
    requires '\n' !in speedupText
    ensures |Split(r, "\n")| == 3
    ensures StartsWith(Split(r, "\n")[0], marks[0] + "Updated " + NatToString(s.changedFiles + s.addedFiles) + " files")
    ensures EndsWith(Split(r, "\n")[2], NatToString(s.totalFiles))
  {
    var l1 := UpdatedLine(s, speedupText, marks[0]);
    var l2 := ChangesLine(s, marks[1]);
    var l3 := TotalLine(s, marks[2]);
    ThreeLines(l1, l2, l3);
    l1 + "\n" + l2 + "\n" + l3
  }

  /** Three newline-free lines joined by newlines split back into the three. */
  lemma {:induction false} ThreeLines(l1: string, l2: string, l3: string)
    requires '\n' !in l1 && '\n' !in l2 && '\n' !in l3
    ensures Split(l1 + "\n" + l2 + "\n" + l3, "\n") == [l1, l2, l3]
  {
    SplitNoSeparator([l1, l2, l3], '\n');
    assert [l1, l2, l3][1..] == [l2, l3] && [l2, l3][1..] == [l3];
    assert JoinWith([l3], "\n") == l3;
    assert JoinWith([l2, l3], "\n") == l2 + "\n" + l3;
    assert JoinWith([l1, l2, l3], "\n") == l1 + "\n" + (l2 + "\n" + l3);
    assert l1 + "\n" + (l2 + "\n" + l3) == l1 + "\n" + l2 + "\n" + l3;
  }

  /** The three lines without markers. */
  lemma {:induction false} PlainLines(s: Summary, speedupText: string)
    requires '\n' !in speedupText
    ensures UpdatedLine(s, speedupText, "") == "Updated " + NatToString(s.changedFiles + s.addedFiles)
              + " files in " + NatToString(s.analysisTimeMs) + "ms (" + speedupText + "x speedup)"
    ensures ChangesLine(s, "") == "Changes: " + NatToString(s.changedFiles) + " modified, "
              + NatToString(s.addedFiles) + " added, " + NatToString(s.deletedFiles) + " deleted"
    ensures TotalLine(s, "") == "Total files in session: " + NatToString(s.totalFiles)
  {
    var u, a := NatToString(s.changedFiles + s.addedFiles), NatToString(s.analysisTimeMs);
    var m, d, t := NatToString(s.changedFiles), NatToString(s.addedFiles), NatToString(s.deletedFiles);
    assert "" + "Updated " + u + " files" + (" in " + a + "ms (" + speedupText + "x speedup)")
           == "Updated " + u + " files in " + a + "ms (" + speedupText + "x speedup)";
    assert "" + "Changes: " + m + " modified, " + d + " added, " + t + " deleted"
           == "Changes: " + m + " modified, " + d + " added, " + t + " deleted";
    assert ("" + "Total files in session: ") == "Total files in session: ";
  }

  /** The analysis engine's summary text, without markers: the three lines
      report the updated files with the time, the three change counts, and
      the session's total. */
  lemma {:induction false} PlainSummaryLines(s: Summary, speedupText: string)
    requires '\n' !in speedupText
    ensures Split(FormatSummary(s, speedupText, PlainMarks), "\n") ==
            ["Updated " + NatToString(s.changedFiles + s.addedFiles) + " files in " + NatToString(s.analysisTimeMs)
             + "ms (" + speedupText + "x speedup)",
             "Changes: " + NatToString(s.changedFiles) + " modified, " + NatToString(s.addedFiles) + " added, "
             + NatToString(s.deletedFiles) + " deleted",
             "Total files in session: " + NatToString(s.totalFiles)]
  {
    var l1, l2, l3 := UpdatedLine(s, speedupText, ""), ChangesLine(s, ""), TotalLine(s, "");
    ThreeLines(l1, l2, l3);
    PlainLines(s, speedupText);
    assert FormatSummary(s, speedupText, PlainMarks) == l1 + "\n" + l2 + "\n" + l3;
  }

  /** One modified and one added change over a hundred files, analysed in a
      second against thirty seconds for a full run. */
  lemma SummaryExample()
    ensures NewSummary(100, [FileChange("test1.js", Modified, None, None), FileChange("test2.js", Added, None, None)],
                       1000, 30000)
            == Summary(100, 1, 1, 0, 1000, Ratio(30000, 1000))
  {
    var cs := [FileChange("test1.js", Modified, None, None), FileChange("test2.js", Added, None, None)];
    assert cs[1..][1..] == [];
  }

  // ---------------------------------------------------------------------------
  // The workspace tool's analyzer
  // ---------------------------------------------------------------------------

  /** `IncrementalAnalyzer::analyze_changes` over the registry of detectors
      (session id to cache). A session without a detector first gets one
      initialised from `initialScan`; `currentScan` is what the detection
      then reads, and `elapsedMs` the time it took. */
  method AnalyzeChanges(detectors: map<string, Snapshot>, session: string,
                        initialScan: Snapshot, currentScan: Snapshot, elapsedMs: nat)
    returns (summary: Summary, registry: map<string, Snapshot>)
    ensures registry == detectors[session := currentScan]
    ensures summary.totalFiles == |currentScan|
    ensures summary.analysisTimeMs == elapsedMs
    ensures summary.changedFiles + summary.addedFiles + summary.deletedFiles == 0 ==> summary.speedup == One
    ensures summary.changedFiles + summary.addedFiles + summary.deletedFiles > 0 ==>
              summary.speedup == if elapsedMs > 0 then Ratio(50 * |currentScan|, elapsedMs) else One
    ensures var cache := if session in detectors then detectors[session] else initialScan;
            summary.addedFiles == |currentScan.Keys - cache.Keys|
            && summary.deletedFiles == |cache.Keys - currentScan.Keys|
            && summary.changedFiles == |set p | p in currentScan && p in cache && HasChanged(currentScan[p], cache[p])|
  {
    var cache := if session in detectors then detectors[session] else initialScan;
    var changes, newCache := DetectChanges(cache, currentScan);
    DetectedCounts(cache, currentScan, changes);
    registry := detectors[session := newCache];
    if |changes| == 0 {
      summary := Summary(|newCache|, 0, 0, 0, elapsedMs, One);
    } else {
      summary := NewSummary(|newCache|, changes, elapsedMs, 50 * |newCache|);
    }
  }
}
