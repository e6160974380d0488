/** Watch mode: which changed files a watcher reacts to, where the watcher
    of a session keeps its PID and lock files, and the registry of active
    watchers that start, stop and status requests work on. The watcher's
    event loop, the spawned background task and the clock are not modelled;
    the time a watch starts is a parameter. */
module Watch {
  import opened Wrappers
  import opened Strs
  import opened Paths
  import CoreTypes
  import SharedTypes

  // ---------------------------------------------------------------------------
  // Configuration and the watched-file test
  // ---------------------------------------------------------------------------

  datatype WatchConfig = WatchConfig(
    debounceMs: nat,
    maxEventsPerSecond: nat,
    excludePatterns: seq<string>,
    includeExtensions: seq<string>)

  const DefaultExcludes: seq<string> :=
    [".git", "node_modules", "target", ".DS_Store", "*.tmp", "*.log", ".nekocode_sessions"]

  const DefaultExtensions: seq<string> :=
    ["js", "mjs", "jsx", "cjs", "ts", "tsx", "cpp", "cxx", "cc", "hpp", "hxx", "hh",
     "c", "h", "py", "pyw", "pyi", "cs", "go", "rs"]

  /** `WatchConfig::default`: half a second of debounce, at most a thousand
      events a second, the seven exclude patterns and twenty extensions. */
  function DefaultConfig(): (c: WatchConfig)
    ensures c.debounceMs == 500 && c.maxEventsPerSecond == 1000
    ensures |c.excludePatterns| == 7 && ".git" in c.excludePatterns
    ensures |c.includeExtensions| == 20 && "js" in c.includeExtensions && "rs" in c.includeExtensions
  {
    WatchConfig(500, 1000, DefaultExcludes, DefaultExtensions)
  }

  /** Some exclude pattern occurs literally in the path text; a pattern such
      as "*.tmp" is text, not a glob. */
  predicate Excluded(patterns: seq<string>, path: string) {
    exists k :: 0 <= k < |patterns| && Contains(path, patterns[k])
  }

  /** The path has an extension whose lower-case form is an included one. */
  predicate ExtensionIncluded(extensions: seq<string>, path: string) {
    Extension(path).Some? && Lower(Extension(path).value) in extensions
  }

  /** The file a watcher reacts to. */
  predicate Watched(c: WatchConfig, path: string) {
    !Excluded(c.excludePatterns, path) && ExtensionIncluded(c.includeExtensions, path)
  }

  /** `FileWatcher::should_watch_file`: the exclude patterns in order, then
      the extension test. */
  method ShouldWatchFile(c: WatchConfig, path: string) returns (r: bool)
    ensures r <==> Watched(c, path)
    ensures Excluded(c.excludePatterns, path) ==> !r
    ensures Extension(path).None? ==> !r
  {
    for k := 0 to |c.excludePatterns|
      invariant forall j :: 0 <= j < k ==> !Contains(path, c.excludePatterns[j])
    {
      if Contains(path, c.excludePatterns[k]) {
        return false;
      }
    }
    match Extension(path)
    case None =>
      r := false;
    case Some(e) =>
      r := Lower(e) in c.includeExtensions;
  }

  /** A path holding an excluded pattern is never watched, whatever its
      extension, and a path without an extension is never watched. */
  lemma {:induction false} ExcludedOrBareRejected(c: WatchConfig, path: string, k: nat)
    requires (k < |c.excludePatterns| && Contains(path, c.excludePatterns[k])) || Extension(path).None?
    ensures !Watched(c, path)
  {
  }

  /** The extension test ignores case when the configured extensions are
      lower case, as the default ones are. */
  lemma {:induction false} ExtensionCaseIgnored(c: WatchConfig, path: string, e: string)
    requires forall k :: 0 <= k < |c.includeExtensions| ==> Lower(c.includeExtensions[k]) == c.includeExtensions[k]
    requires Extension(path) == Some(e)
    ensures ExtensionIncluded(c.includeExtensions, path) <==>
              (exists k :: 0 <= k < |c.includeExtensions| && Lower(c.includeExtensions[k]) == Lower(e))
  {
  }

  /** Every default extension is already lower case. */
  lemma {:induction false} DefaultExtensionsLower()
    ensures forall e :: e in DefaultExtensions ==> Lower(e) == e
  {
    forall e | e in DefaultExtensions ensures Lower(e) == e {
      LowerUnchanged(e);
    }
  }

  /** Every default extension names a language the analysis core recognises
      from the dotted extension. */
  lemma {:induction false} DefaultExtensionsKnown()
    ensures forall e :: e in DefaultExtensions ==> !CoreTypes.FromExtension("." + e).Unknown?
  {
    SharedTypes.DottedAgreesOnJavaScript();
    SharedTypes.DottedAgreesOnTypeScript();
    SharedTypes.DottedAgreesOnCpp();
    SharedTypes.DottedAgreesOnC();
    SharedTypes.DottedAgreesOnPython();
    SharedTypes.DottedAgreesOnCSharp();
    SharedTypes.DottedAgreesOnGo();
    SharedTypes.DottedAgreesOnRust();
  }

  /** Text lacking the chars 'g', 'n', 'a', 'D' and '*', each of which some
      default exclude pattern holds. */
  predicate AvoidsExcludeChars(s: string) {
    'g' !in s && 'n' !in s && 'a' !in s && 'D' !in s && '*' !in s
  }

  /** None of the default exclude patterns occurs in such text. */
  lemma {:induction false} DefaultsNotExcluded(path: string)
    requires AvoidsExcludeChars(path)
    ensures !Excluded(DefaultExcludes, path)
  {
    MissingCharNotContained(path, ".git", 'g');
    MissingCharNotContained(path, "node_modules", 'n');
    MissingCharNotContained(path, "target", 'a');
    MissingCharNotContained(path, ".DS_Store", 'D');
    MissingCharNotContained(path, "*.tmp", '*');
    MissingCharNotContained(path, "*.log", '*');
    MissingCharNotContained(path, ".nekocode_sessions", 'n');
  }

  /** A plain file name `<stem>.<ext>` has the extension `<ext>`. */
  lemma {:induction false} PlainFileExtension(stem: string, ext: string)
    requires ValidName(stem) && ValidName(ext) && '.' !in ext
    ensures Extension(stem + "." + ext) == Some(ext)
  {
    var n := stem + "." + ext;
    assert ValidName(n) by {
      assert forall j :: 0 <= j < |n| ==> n[j] == '.' || n[j] in stem || n[j] in ext;
    }
    SingleName(n);
    assert forall j :: |stem| < j < |n| ==> n[j] == ext[j - |stem| - 1];
    RFindLast(n, '.', |stem|);
    assert n[|stem| + 1..] == ext;
  }

  /** An extension that is a proper name without a dot or an
      exclude-pattern char. */
  predicate PlainExtension(ext: string) {
    ValidName(ext) && '.' !in ext && AvoidsExcludeChars(ext)
  }

  /** A plain `<stem>.<ext>` name free of the default exclude patterns is
      watched exactly when its lower-case extension is a default one. */
  lemma {:induction false} PlainFileWatched(stem: string, ext: string)
    requires ValidName(stem) && AvoidsExcludeChars(stem) && PlainExtension(ext)
    ensures Watched(DefaultConfig(), stem + "." + ext) <==> Lower(ext) in DefaultExtensions
  {
    var n := stem + "." + ext;
    assert forall j :: 0 <= j < |n| ==> n[j] == '.' || n[j] in stem || n[j] in ext;
    PlainFileExtension(stem, ext);
    DefaultsNotExcluded(n);
  }

  /** The extensions of the examples below, lower-cased, and whether they
      are default ones. */
  lemma ExtensionExamples()
    ensures Lower("js") in DefaultExtensions && Lower("ts") in DefaultExtensions
    ensures Lower("py") in DefaultExtensions && Lower("rs") in DefaultExtensions
    ensures Lower("JS") in DefaultExtensions
    ensures Lower("txt") !in DefaultExtensions && Lower("md") !in DefaultExtensions
  {
    LowerUnchanged("js");
    LowerUnchanged("ts");
    LowerUnchanged("py");
    LowerUnchanged("rs");
    LowerUnchanged("txt");
    LowerUnchanged("md");
    assert Lower("JS")[0] == 'j' && Lower("JS")[1] == 's';
    assert Lower("JS") == "js";
  }

  lemma PlainSourceExtensions()
    ensures PlainExtension("js") && PlainExtension("ts") && PlainExtension("py")
    ensures PlainExtension("rs") && PlainExtension("JS")
  {
  }

  lemma PlainOtherExtensions()
    ensures PlainExtension("txt") && PlainExtension("md")
  {
  }

  /** The watcher's own examples, for the stem `test` or any other plain stem
      without exclude-pattern chars: source files are watched, including one
      with an upper-case extension. */
  lemma {:induction false} SourceFilesWatched(stem: string)
    requires ValidName(stem) && AvoidsExcludeChars(stem)
    ensures Watched(DefaultConfig(), stem + "." + "js")
    ensures Watched(DefaultConfig(), stem + "." + "ts")
    ensures Watched(DefaultConfig(), stem + "." + "py")
    ensures Watched(DefaultConfig(), stem + "." + "rs")
    ensures Watched(DefaultConfig(), stem + "." + "JS")
  {
    ExtensionExamples();
    PlainSourceExtensions();
    PlainFileWatched(stem, "js");
    PlainFileWatched(stem, "ts");
    PlainFileWatched(stem, "py");
    PlainFileWatched(stem, "rs");
    PlainFileWatched(stem, "JS");
  }

  /** The watcher's own examples of other extensions, which are not
      watched. */
  lemma {:induction false} OtherFilesRejected(stem: string)
    requires ValidName(stem) && AvoidsExcludeChars(stem)
    ensures !Watched(DefaultConfig(), stem + "." + "txt")
    ensures !Watched(DefaultConfig(), stem + "." + "md")
  {
    ExtensionExamples();
    PlainOtherExtensions();
    PlainFileWatched(stem, "txt");
    PlainFileWatched(stem, "md");
  }

  /** `test` is such a stem. */
  lemma TestStem()
    ensures ValidName("test") && AvoidsExcludeChars("test")
  {
  }

  /** A path that starts with an exclude pattern is not watched, whatever
      follows it: `node_modules/test.js`, `.git/config` and
      `target/debug/test` among them. */
  lemma {:induction false} ExcludedPrefix(c: WatchConfig, k: nat, rest: string)
    requires k < |c.excludePatterns|
    ensures !Watched(c, c.excludePatterns[k] + rest)
  {
    var p, path := c.excludePatterns[k], c.excludePatterns[k] + rest;
    OccursIsSlice(path, p, 0);
    assert path[..|p|] == p;
  }

  /** "*.tmp" is read literally: it does not exclude `test.tmp`, nor any
      other `.tmp` file whose stem avoids the exclude-pattern chars. */
  lemma {:induction false} GlobIsLiteral(stem: string)
    requires AvoidsExcludeChars(stem)
    ensures !Excluded(DefaultExcludes, stem + "." + "tmp")
  {
    var n := stem + "." + "tmp";
    assert forall j :: 0 <= j < |n| ==> n[j] in stem || n[j] in ".tmp";
    DefaultsNotExcluded(n);
  }

  // ---------------------------------------------------------------------------
  // PID and lock files
  // ---------------------------------------------------------------------------

  const WatchFilePrefix: string := "/tmp/nekocode-watch-"

  /** `PidManager::get_pid_file`. */
  function PidFile(sessionId: string): string {
    WatchFilePrefix + sessionId + ".pid"
  }

  /** `PidManager::get_lock_file`. */
  function LockFile(sessionId: string): string {
    WatchFilePrefix + sessionId + ".lock"
  }

  /** Both files live in `/tmp`; a PID file is never a lock file, and each
      names exactly one session. */
  lemma {:induction false} WatchFilesDistinct(a: string, b: string)
    ensures StartsWith(PidFile(a), "/tmp/") && StartsWith(LockFile(a), "/tmp/")
    ensures PidFile(a) != LockFile(b)
    ensures PidFile(a) == PidFile(b) <==> a == b
    ensures LockFile(a) == LockFile(b) <==> a == b
  {
    var pa, lb := PidFile(a), LockFile(b);
    assert pa[|pa| - 1] == 'd' && lb[|lb| - 1] == 'k';
    if PidFile(a) == PidFile(b) {
      assert a == PidFile(a)[|WatchFilePrefix|..|PidFile(a)| - 4];
      assert b == PidFile(b)[|WatchFilePrefix|..|PidFile(b)| - 4];
    }
    if LockFile(a) == LockFile(b) {
      assert a == LockFile(a)[|WatchFilePrefix|..|LockFile(a)| - 5];
      assert b == LockFile(b)[|WatchFilePrefix|..|LockFile(b)| - 5];
    }
    assert PidFile(a)[..5] == "/tmp/";
    assert LockFile(a)[..5] == "/tmp/";
  }

  // ---------------------------------------------------------------------------
  // The registry of active watchers
  // ---------------------------------------------------------------------------

  type Time = int

  datatype WatchState = Watching | Stopped | Error(message: string)

  datatype WatchStatus = WatchStatus(
    sessionId: string,
    state: WatchState,
    watchedFiles: nat,
    lastUpdate: Option<Time>,
    startedAt: Time)

  /** The active watchers by session id. */
  type Registry = map<string, WatchStatus>

  /** Every entry is filed under its own session id. */
  predicate WellKeyed(reg: Registry) {
    forall id :: id in reg ==> reg[id].sessionId == id
  }

  function AlreadyWatched(id: string): string {
    "Session " + id + " is already being watched"
  }

  function NotWatched(id: string): string {
    "Session " + id + " is not being watched"
  }

  /** `WatchManager::start_watch`. `sessionError` is the failure of the
      session lookup and `initError` that of the incremental analyzer's
      initialisation; a new entry is watching no files yet and starts at
      `now`. */
  function StartWatch(reg: Registry, id: string, sessionError: Option<string>, initError: Option<string>,
                      now: Time): (r: Result<Registry>)
    ensures r.Ok? <==> sessionError.None? && id !in reg && initError.None?
    ensures sessionError.Some? ==> r == Err(sessionError.value)
    ensures sessionError.None? && id in reg ==> r == Err(AlreadyWatched(id))
    ensures r.Ok? ==> r.value.Keys == reg.Keys + {id}
    ensures r.Ok? ==> forall k :: k in reg ==> r.value[k] == reg[k]
    ensures r.Ok? ==> r.value[id] == WatchStatus(id, Watching, 0, None, now)
    ensures r.Ok? && WellKeyed(reg) ==> WellKeyed(r.value)
  {
    if sessionError.Some? then Err(sessionError.value)
    else if id in reg then Err(AlreadyWatched(id))
    else if initError.Some? then Err(initError.value)
    else Ok(reg[id := WatchStatus(id, Watching, 0, None, now)])
  }

  /** `WatchManager::stop_watch`: removes the session's entry, or fails when
      there is none. */
  function StopWatch(reg: Registry, id: string): (r: Result<Registry>)
    ensures r.Ok? <==> id in reg
    ensures r.Err? ==> r.msg == NotWatched(id)
    ensures r.Ok? ==> r.value.Keys == reg.Keys - {id}
    ensures r.Ok? ==> forall k :: k in r.value ==> r.value[k] == reg[k]
    ensures r.Ok? && WellKeyed(reg) ==> WellKeyed(r.value)
  {
    if id in reg then Ok(reg - {id}) else Err(NotWatched(id))
  }

  /** `WatchManager::get_status`. */
  function GetStatus(reg: Registry, id: string): (r: Option<WatchStatus>)
    ensures r.Some? <==> id in reg
    ensures r.Some? ==> r.value == reg[id]
    ensures r.Some? && WellKeyed(reg) ==> r.value.sessionId == id
  {
    if id in reg then Some(reg[id]) else None
  }

  /** `WatchManager::list_active_watches`: every entry, in no particular
      order. */
  function ListActive(reg: Registry): (r: set<WatchStatus>)
    ensures forall w :: w in r <==> exists id :: id in reg && reg[id] == w
    ensures WellKeyed(reg) ==> forall w :: w in r ==> w.sessionId in reg && reg[w.sessionId] == w
  {
    set id | id in reg :: reg[id]
  }

  /** `WatchManager::stop_all_watches`: forgets every entry, returning how
      many there were. */
  function StopAll(reg: Registry): (r: (Registry, nat))
    ensures r.0 == map[] && r.1 == |reg|
    ensures forall id :: GetStatus(r.0, id).None?
  {
    (map[], |reg|)
  }

  /** Stopping a watch that was just started gives the registry back. */
  lemma {:induction false} StartThenStop(reg: Registry, id: string, sessionError: Option<string>,
                                         initError: Option<string>, now: Time)
    requires StartWatch(reg, id, sessionError, initError, now).Ok?
    ensures StopWatch(StartWatch(reg, id, sessionError, initError, now).value, id) == Ok(reg)
  {
    var r := StartWatch(reg, id, sessionError, initError, now).value;
    assert r - {id} == reg;
  }

  /** A started session reports itself as watching, and starting it again
      fails as already watched unless the session lookup fails first. */
  lemma {:induction false} StartTwiceFails(reg: Registry, id: string, e1: Option<string>, i1: Option<string>,
                                           t1: Time, e2: Option<string>, i2: Option<string>, t2: Time)
    requires StartWatch(reg, id, e1, i1, t1).Ok?
    ensures GetStatus(StartWatch(reg, id, e1, i1, t1).value, id).value.state == Watching
    ensures StartWatch(StartWatch(reg, id, e1, i1, t1).value, id, e2, i2, t2).Err?
    ensures e2.None? ==> StartWatch(StartWatch(reg, id, e1, i1, t1).value, id, e2, i2, t2) == Err(AlreadyWatched(id))
  {
  }

  /** A second stop of the same session fails as not watched, and other
      sessions keep their entries. */
  lemma {:induction false} StopTwiceFails(reg: Registry, id: string, other: string)
    requires StopWatch(reg, id).Ok?
    ensures StopWatch(StopWatch(reg, id).value, id) == Err(NotWatched(id))
    ensures other != id ==> GetStatus(StopWatch(reg, id).value, other) == GetStatus(reg, other)
  {
  }
}
