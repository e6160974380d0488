/** The in-memory bookkeeping of a shared-core session
    (`nekocode-core/src/session.rs`): the analysis results, the derived
    counts and the per-file content hashes. Clock readings are parameters;
    paths compare, as Rust paths do, by their components. */
module CoreSession {
  import opened Wrappers
  import opened Seqs
  import opened Langs
  import opened SharedTypes
  import Paths

  /** The key of a path in the hash table: its components. */
  type PathKey = seq<Paths.Component>

  function Key(path: string): PathKey { Paths.Components(path) }

  datatype SessionInfo = SessionInfo(
    id: string,
    path: string,
    createdAt: int,
    lastAccessed: int,
    lastModified: int,
    metadata: map<string, string>,
    results: seq<AnalysisResult>,
    fileCount: nat,
    totalLines: nat,
    languages: multiset<Language>,
    fileHashes: map<PathKey, string>,
    lastScanTime: Option<int>,
    version: string,
    isDirty: bool)

  function LinesOfCode(rs: seq<AnalysisResult>): (r: seq<nat>)
    ensures |r| == |rs| && forall k :: 0 <= k < |rs| ==> r[k] == rs[k].metrics.linesOfCode
  {
    seq(|rs|, k requires 0 <= k < |rs| => rs[k].metrics.linesOfCode)
  }

  function LanguagesOf(rs: seq<AnalysisResult>): (r: seq<Language>)
    ensures |r| == |rs| && forall k :: 0 <= k < |rs| ==> r[k] == rs[k].fileInfo.language
  {
    seq(|rs|, k requires 0 <= k < |rs| => rs[k].fileInfo.language)
  }

  /** The derived fields agree with the results: one count per result, the
      summed lines of code, and every result's language counted once. */
  predicate Consistent(s: SessionInfo) {
    s.fileCount == |s.results|
    && s.totalLines == Sum(LinesOfCode(s.results))
    && s.languages == multiset(LanguagesOf(s.results))
  }

  /** `SessionInfo::new`: everything empty or zero, all three timestamps
      `now`, no scan yet, and not dirty. */
  function NewSessionInfo(id: string, path: string, now: int, version: string): (r: SessionInfo)
    ensures r.id == id && r.path == path && r.version == version
    ensures r.createdAt == now && r.lastAccessed == now && r.lastModified == now
    ensures r.results == [] && r.fileHashes == map[] && r.metadata == map[] && r.lastScanTime.None?
    ensures Consistent(r) && r.fileCount == 0 && r.totalLines == 0 && r.languages == multiset{}
    ensures !r.isDirty
  {
    SessionInfo(id, path, now, now, now, map[], [], 0, 0, multiset{}, map[], None, version, false)
  }

  /** `SessionInfo::update_stats`: recomputes the derived fields from the
      results, stamps the modification time and marks the session dirty;
      the results, hashes and the rest are kept. */
  function UpdateStats(s: SessionInfo, now: int): (r: SessionInfo)
    ensures Consistent(r) && |r.languages| == r.fileCount
    ensures r.isDirty && r.lastModified == now
    ensures r.(fileCount := s.fileCount, totalLines := s.totalLines, languages := s.languages,
               lastModified := s.lastModified, isDirty := s.isDirty) == s
  {
    s.(fileCount := |s.results|,
       totalLines := Sum(LinesOfCode(s.results)),
       languages := multiset(LanguagesOf(s.results)),
       lastModified := now,
       isDirty := true)
  }

  /** `Session::touch`: only the access time and the dirty flag change. */
  function Touch(s: SessionInfo, now: int): (r: SessionInfo)
    ensures r.isDirty && r.lastAccessed == now
    ensures r.(lastAccessed := s.lastAccessed, isDirty := s.isDirty) == s
  {
    s.(lastAccessed := now, isDirty := true)
  }

  /** `Session::add_analysis_result`: the result is appended last, its hash
      (when it has one) replaces the one stored for its path, and the counts
      are recomputed. */
  function AddAnalysisResult(s: SessionInfo, res: AnalysisResult, now: int): (r: SessionInfo)
    ensures r.results == s.results + [res]
    ensures Consistent(r) && r.fileCount == |s.results| + 1 && r.isDirty
    ensures res.fileInfo.hash.Some? ==> r.fileHashes == s.fileHashes[Key(res.fileInfo.path) := res.fileInfo.hash.value]
    ensures res.fileInfo.hash.None? ==> r.fileHashes == s.fileHashes
  {
    var hashes := match res.fileInfo.hash
      case Some(h) => s.fileHashes[Key(res.fileInfo.path) := h]
      case None => s.fileHashes;
    UpdateStats(s.(fileHashes := hashes, results := s.results + [res]), now)
  }

  /** On a consistent session, adding a result counts exactly one more
      file and its lines. */
  lemma {:induction false} AddCountsOneMore(s: SessionInfo, res: AnalysisResult, now: int)
    requires Consistent(s)
    ensures AddAnalysisResult(s, res, now).fileCount == s.fileCount + 1
    ensures AddAnalysisResult(s, res, now).totalLines == s.totalLines + res.metrics.linesOfCode
    ensures AddAnalysisResult(s, res, now).languages == s.languages + multiset{res.fileInfo.language}
  {
    var rs := s.results + [res];
    assert LinesOfCode(rs) == LinesOfCode(s.results) + [res.metrics.linesOfCode];
    SumAppend(LinesOfCode(s.results), [res.metrics.linesOfCode]);
    assert LanguagesOf(rs) == LanguagesOf(s.results) + [res.fileInfo.language];
  }

  /** `Session::has_file_changed`: a path without a stored hash counts as
      changed; otherwise it changed when the stored hash differs. */
  function HasFileChanged(s: SessionInfo, path: string, currentHash: string): (r: bool)
    ensures r <==> Key(path) !in s.fileHashes || s.fileHashes[Key(path)] != currentHash
  {
    match Lookup(s.fileHashes, Key(path))
    case Some(stored) => stored != currentHash
    case None => true
  }

  function Lookup(m: map<PathKey, string>, k: PathKey): (r: Option<string>)
    ensures r.Some? <==> k in m
    ensures r.Some? ==> r.value == m[k]
  {
    if k in m then Some(m[k]) else None
  }

  /** After a result with a hash is added, the same content no longer counts
      as changed and any other content does. */
  lemma {:induction false} AddedFileUnchanged(s: SessionInfo, res: AnalysisResult, now: int, h: string)
    requires res.fileInfo.hash == Some(h)
    ensures !HasFileChanged(AddAnalysisResult(s, res, now), res.fileInfo.path, h)
    ensures forall other :: other != h ==> HasFileChanged(AddAnalysisResult(s, res, now), res.fileInfo.path, other)
  {
  }

  function NotAt(key: PathKey): AnalysisResult -> bool {
    (r: AnalysisResult) => Key(r.fileInfo.path) != key
  }

  /** `Session::remove_file`: the results for other paths stay, in order,
      and the path's hash is forgotten. */
  function RemoveFile(s: SessionInfo, path: string, now: int): (r: SessionInfo)
    ensures IsFilterOf(r.results, s.results, NotAt(Key(path)))
    ensures forall k :: 0 <= k < |r.results| ==> Key(r.results[k].fileInfo.path) != Key(path)
    ensures r.fileHashes == s.fileHashes - {Key(path)}
    ensures Consistent(r) && r.isDirty
  {
    FilterIsFilterOf(NotAt(Key(path)), s.results);
    var kept := Filter(NotAt(Key(path)), s.results);
    assert forall k :: 0 <= k < |kept| ==> NotAt(Key(path))(kept[k]);
    UpdateStats(s.(results := kept, fileHashes := s.fileHashes - {Key(path)}), now)
  }

  /** Removing a path that was just added, to a session without results for
      that path, gives back the original results and hashes. */
  lemma {:induction false} RemoveUndoesAdd(s: SessionInfo, res: AnalysisResult, now: int, later: int)
    requires forall k :: 0 <= k < |s.results| ==> Key(s.results[k].fileInfo.path) != Key(res.fileInfo.path)
    requires Key(res.fileInfo.path) !in s.fileHashes
    ensures RemoveFile(AddAnalysisResult(s, res, now), res.fileInfo.path, later).results == s.results
    ensures RemoveFile(AddAnalysisResult(s, res, now), res.fileInfo.path, later).fileHashes == s.fileHashes
  {
    var key := Key(res.fileInfo.path);
    FilterDropsLast(s.results, res, key);
    HashesRestored(s.fileHashes, key, res.fileInfo.hash);
  }

  lemma {:induction false} FilterDropsLast(rs: seq<AnalysisResult>, res: AnalysisResult, key: PathKey)
    requires forall k :: 0 <= k < |rs| ==> Key(rs[k].fileInfo.path) != key
    requires Key(res.fileInfo.path) == key
    ensures Filter(NotAt(key), rs + [res]) == rs
  {
    FilterAppend(NotAt(key), rs, [res]);
    FilterKeepsAll(NotAt(key), rs);
    assert Filter(NotAt(key), [res]) == [] by {
      assert !NotAt(key)(res);
      assert [res][1..] == [];
    }
  }

  lemma {:induction false} HashesRestored(m: map<PathKey, string>, key: PathKey, h: Option<string>)
    requires key !in m
    ensures (match h case Some(x) => m[key := x] case None => m) - {key} == m
  {
  }

  /** Filtering by a predicate every element satisfies changes nothing. */
  lemma {:induction false} FilterKeepsAll<T>(p: T -> bool, s: seq<T>)
    requires forall k :: 0 <= k < |s| ==> p(s[k])
    ensures Filter(p, s) == s
    decreases |s|
  {
    if |s| > 0 {
      FilterKeepsAll(p, s[1..]);
    }
  }

  /** `Session::clear`: no results and no hashes, with the counts reset. */
  function Clear(s: SessionInfo, now: int): (r: SessionInfo)
    ensures r.results == [] && r.fileHashes == map[]
    ensures Consistent(r) && r.fileCount == 0 && r.totalLines == 0 && r.languages == multiset{}
    ensures r.id == s.id && r.path == s.path && r.metadata == s.metadata && r.isDirty
  {
    UpdateStats(s.(results := [], fileHashes := map[]), now)
  }

  /** `Session::get_files_by_language`: the results of that language, in
      order. */
  function FilesByLanguage(s: SessionInfo, l: Language): (r: seq<AnalysisResult>)
    ensures IsFilterOf(r, s.results, (a: AnalysisResult) => a.fileInfo.language == l)
  {
    FilterIsFilterOf((a: AnalysisResult) => a.fileInfo.language == l, s.results);
    Filter((a: AnalysisResult) => a.fileInfo.language == l, s.results)
  }

  /** The files of each language number as the language count says. */
  lemma {:induction false} FilesByLanguageCount(s: SessionInfo, l: Language)
    requires Consistent(s)
    ensures |FilesByLanguage(s, l)| == s.languages[l]
  {
    FilterCountsLanguage(s.results, l);
  }

  lemma {:induction false} FilterCountsLanguage(rs: seq<AnalysisResult>, l: Language)
    ensures |Filter((a: AnalysisResult) => a.fileInfo.language == l, rs)| == multiset(LanguagesOf(rs))[l]
    decreases |rs|
  {
    if |rs| > 0 {
      FilterCountsLanguage(rs[1..], l);
      assert LanguagesOf(rs) == [rs[0].fileInfo.language] + LanguagesOf(rs[1..]);
    }
  }
}
