/** Paths as Rust's `std::path` reads them on Unix, and the path helpers of
    nekocode-core (`PathUtils`, `FileProcessor::should_ignore`). A path is
    text; `Components` gives the component sequence Rust sees in it. */
module Paths {
  import opened Wrappers
  import opened Strs

  datatype Component = RootDir | CurDir | ParentDir | Normal(name: string)

  /** A name that can stand as a `Normal` component. */
  predicate ValidName(n: string) {
    n != "" && n != "." && n != ".." && '/' !in n
  }

  /** The shape every `Path::components` result has: the root or the current
      directory only in front, and proper names. */
  predicate WellFormed(cs: seq<Component>) {
    forall k :: 0 <= k < |cs| ==>
      ((cs[k].RootDir? || cs[k].CurDir?) ==> k == 0) && (cs[k].Normal? ==> ValidName(cs[k].name))
  }

  /** A component sequence without "." or "..": what `normalize` produces. */
  predicate Clean(cs: seq<Component>) {
    WellFormed(cs) && forall k :: 0 <= k < |cs| ==> !cs[k].CurDir? && !cs[k].ParentDir?
  }

  /** Components of pieces that follow the first one: empty and "." pieces
      vanish, ".." is the parent directory. */
  function PieceComponents(pieces: seq<string>): (r: seq<Component>)
    requires forall k :: 0 <= k < |pieces| ==> '/' !in pieces[k]
    ensures forall k :: 0 <= k < |r| ==> r[k].ParentDir? || (r[k].Normal? && ValidName(r[k].name))
    decreases |pieces|
  {
    if |pieces| == 0 then []
    else
      var p := pieces[0];
      (if p == "" || p == "." then [] else if p == ".." then [ParentDir] else [Normal(p)])
      + PieceComponents(pieces[1..])
  }

  /** `Path::components`: a leading "/" is the root, a leading "." piece is the
      current directory, and empty or later "." pieces vanish. */
  function Components(p: string): (r: seq<Component>)
    ensures WellFormed(r)
  {
    PiecesFree(p, '/');
    var pieces := Split(p, "/");
    if |p| > 0 && p[0] == '/' then [RootDir] + PieceComponents(pieces[1..])
    else if pieces[0] == "." then [CurDir] + PieceComponents(pieces[1..])
    else PieceComponents(pieces)
  }

  /** `Path::file_name`: the last component when it is a name. */
  function FileName(p: string): (r: Option<string>)
    ensures r.Some? ==> ValidName(r.value)
    ensures r.Some? <==> (|Components(p)| > 0 && Components(p)[|Components(p)| - 1].Normal?)
  {
    var cs := Components(p);
    if |cs| > 0 && cs[|cs| - 1].Normal? then Some(cs[|cs| - 1].name) else None
  }

  /** The extension of a file name: the text after its last dot, unless there
      is no dot or the only dot leads the name (".bashrc"). */
  function NameExtension(name: string): (r: Option<string>)
    ensures r.Some? ==> '.' !in r.value && EndsWith(name, "." + r.value) && |r.value| + 1 < |name|
    ensures r.None? <==> |name| == 0 || '.' !in name[1..]
  {
    match RFindChar(name, '.')
    case None => None
    case Some(i) =>
      if i == 0 then
        assert forall j :: 0 <= j < |name[1..]| ==> name[1..][j] == name[j + 1];
        None
      else
        assert name[1..][i - 1] == '.';
        assert name[|name| - (|name| - i)..] == "." + name[i + 1..];
        Some(name[i + 1..])
  }

  /** `Path::extension`. */
  function Extension(p: string): Option<string> {
    match FileName(p)
    case None => None
    case Some(n) => NameExtension(n)
  }

  /** A path that is a single proper name is one `Normal` component, its
      own file name. */
  lemma {:induction false} SingleName(n: string)
    requires ValidName(n)
    ensures Components(n) == [Normal(n)]
    ensures FileName(n) == Some(n) && Extension(n) == NameExtension(n)
  {
    SplitFree(n, '/');
    assert n[0] in n;
    assert PieceComponents([n]) == [Normal(n)] + PieceComponents([n][1..]);
  }

  // ---------------------------------------------------------------------------
  // Writing components back as text
  // ---------------------------------------------------------------------------

  /** The names of a sequence of `Normal` components. */
  function Names(cs: seq<Component>): (r: seq<string>)
    requires forall k :: 0 <= k < |cs| ==> cs[k].Normal?
    ensures |r| == |cs|
    ensures forall k :: 0 <= k < |cs| ==> r[k] == cs[k].name
    decreases |cs|
  {
    if |cs| == 0 then [] else [cs[0].name] + Names(cs[1..])
  }

  /** Collecting components into a `PathBuf`: the root becomes a leading "/",
      names are joined by "/". */
  function Render(cs: seq<Component>): string
    requires Clean(cs)
  {
    if |cs| > 0 && cs[0].RootDir? then "/" + JoinWith(Names(cs[1..]), "/")
    else JoinWith(Names(cs), "/")
  }

  lemma {:induction false} PieceComponentsOfNames(cs: seq<Component>)
    requires forall k :: 0 <= k < |cs| ==> cs[k].Normal? && ValidName(cs[k].name)
    ensures forall k :: 0 <= k < |cs| ==> '/' !in Names(cs)[k]
    ensures PieceComponents(Names(cs)) == cs
    decreases |cs|
  {
    if |cs| > 0 {
      assert Names(cs)[1..] == Names(cs[1..]);
      PieceComponentsOfNames(cs[1..]);
      assert cs == [cs[0]] + cs[1..];
    }
  }

  lemma {:induction false} JoinHead(parts: seq<string>, sep: string)
    requires |parts| > 0 && |parts[0]| > 0
    ensures |JoinWith(parts, sep)| > 0 && JoinWith(parts, sep)[0] == parts[0][0]
  {
  }

  /** Writing a clean component sequence and reading it back gives it back. */
  lemma {:induction false} RenderComponents(cs: seq<Component>)
    requires Clean(cs)
    ensures Components(Render(cs)) == cs
  {
    var rooted := |cs| > 0 && cs[0].RootDir?;
    var rest := if rooted then cs[1..] else cs;
    forall k | 0 <= k < |rest| ensures rest[k].Normal? && ValidName(rest[k].name) {
      if rooted { assert rest[k] == cs[k + 1]; }
    }
    if rooted {
      RenderRooted(rest);
      assert cs == [RootDir] + rest;
    } else {
      RenderRelative(rest);
    }
  }

  /** The pieces of joined names are the names again. */
  lemma {:induction false} PiecesOfJoin(rest: seq<Component>)
    requires forall k :: 0 <= k < |rest| ==> rest[k].Normal? && ValidName(rest[k].name)
    ensures forall k :: 0 <= k < |Split(JoinWith(Names(rest), "/"), "/")| ==> '/' !in Split(JoinWith(Names(rest), "/"), "/")[k]
    ensures PieceComponents(Split(JoinWith(Names(rest), "/"), "/")) == rest
  {
    var names := Names(rest);
    PieceComponentsOfNames(rest);
    if |names| == 0 {
      assert Split("", "/") == [""];
      assert PieceComponents([""]) == [];
    } else {
      SplitNoSeparator(names, '/');
    }
  }

  lemma {:induction false} RenderRelative(rest: seq<Component>)
    requires forall k :: 0 <= k < |rest| ==> rest[k].Normal? && ValidName(rest[k].name)
    ensures Components(JoinWith(Names(rest), "/")) == rest
  {
    var names := Names(rest);
    var j := JoinWith(names, "/");
    PiecesOfJoin(rest);
    if |names| > 0 {
      JoinHead(names, "/");
      SplitNoSeparator(names, '/');
      assert Split(j, "/")[0] == names[0];
    } else {
      assert Split("", "/") == [""];
    }
  }

  lemma {:induction false} RenderRooted(rest: seq<Component>)
    requires forall k :: 0 <= k < |rest| ==> rest[k].Normal? && ValidName(rest[k].name)
    ensures Components("/" + JoinWith(Names(rest), "/")) == [RootDir] + rest
  {
    var j := JoinWith(Names(rest), "/");
    var p := "/" + j;
    PiecesOfJoin(rest);
    assert Occurs(p, "/", 0);
    assert Find(p, "/") == Some(0);
    assert p[1..] == j;
    assert Split(p, "/") == [""] + Split(j, "/");
    assert Split(p, "/")[1..] == Split(j, "/");
  }

  // ---------------------------------------------------------------------------
  // PathUtils
  // ---------------------------------------------------------------------------

  /** `PathUtils::normalize` on the components of its argument: "." is
      skipped, ".." pops the last kept component (even the root) or does
      nothing when none is kept, everything else is kept. */
  function Normalize(cs: seq<Component>): (r: seq<Component>)
    requires WellFormed(cs)
    ensures Clean(r)
    ensures |r| <= |cs|
    decreases |cs|
  {
    if |cs| == 0 then []
    else
      var acc := Normalize(cs[..|cs| - 1]);
      var c := cs[|cs| - 1];
      if c.ParentDir? then (if |acc| > 0 then acc[..|acc| - 1] else acc)
      else if c.CurDir? then acc
      else acc + [c]
  }

  /** A sequence without "." and ".." is left as it is. */
  lemma {:induction false} NormalizeClean(cs: seq<Component>)
    requires Clean(cs)
    ensures Normalize(cs) == cs
    decreases |cs|
  {
    if |cs| > 0 {
      NormalizeClean(cs[..|cs| - 1]);
      assert cs == cs[..|cs| - 1] + [cs[|cs| - 1]];
    }
  }

  /** ".." cancels the name before it. */
  lemma {:induction false} NormalizeParent(cs: seq<Component>, n: string)
    requires WellFormed(cs) && WellFormed(cs + [Normal(n), ParentDir])
    ensures Normalize(cs + [Normal(n), ParentDir]) == Normalize(cs)
  {
    var a := cs + [Normal(n), ParentDir];
    assert a[..|a| - 1] == cs + [Normal(n)];
    assert (cs + [Normal(n)])[..|cs|] == cs;
  }

  /** `normalize` is idempotent on paths: normalizing the normalized path,
      written out and read back, changes nothing. */
  lemma {:induction false} NormalizeIdempotent(p: string)
    ensures Normalize(Components(Render(Normalize(Components(p))))) == Normalize(Components(p))
  {
    var n := Normalize(Components(p));
    RenderComponents(n);
    NormalizeClean(n);
  }

  /** `PathUtils::make_relative`: `Path::strip_prefix` on components, or the
      path itself when `base` is not a component prefix of it. */
  function MakeRelative(path: seq<Component>, base: seq<Component>): (r: seq<Component>)
    ensures |base| <= |path| && path[..|base|] == base ==> base + r == path
    ensures !(|base| <= |path| && path[..|base|] == base) ==> r == path
  {
    if |base| <= |path| && path[..|base|] == base then path[|base|..] else path
  }

  lemma {:induction false} MakeRelativeOfJoin(base: seq<Component>, rest: seq<Component>)
    ensures MakeRelative(base + rest, base) == rest
  {
    assert (base + rest)[..|base|] == base;
  }

  /** `PathUtils::is_hidden`: the file name starts with a dot. */
  predicate IsHidden(p: string) {
    match FileName(p)
    case None => false
    case Some(n) => n[0] == '.'
  }

  /** A clean path ending in name `n` is hidden exactly when `n` starts with a dot. */
  lemma {:induction false} HiddenIff(cs: seq<Component>, n: string)
    requires n != "" && Clean(cs + [Normal(n)])
    ensures IsHidden(Render(cs + [Normal(n)])) <==> n[0] == '.'
  {
    RenderComponents(cs + [Normal(n)]);
  }

  /** The root directory has no file name and is not hidden. */
  lemma {:induction false} NotHiddenWithoutName(cs: seq<Component>)
    requires Clean(cs) && |cs| > 0 && !cs[|cs| - 1].Normal?
    ensures !IsHidden(Render(cs))
  {
    RenderComponents(cs);
  }

  /** The patterns a new `FileProcessor` ignores. */
  const DefaultIgnorePatterns: seq<string> := [".git", "node_modules", "target", "dist", "build"]

  /** `FileProcessor::should_ignore`: some pattern occurs literally in the
      path text. */
  method ShouldIgnore(patterns: seq<string>, path: string) returns (r: bool)
    ensures r <==> exists k :: 0 <= k < |patterns| && Contains(path, patterns[k])
  {
    for k := 0 to |patterns|
      invariant forall j :: 0 <= j < k ==> !Contains(path, patterns[j])
    {
      if Contains(path, patterns[k]) {
        return true;
      }
    }
    return false;
  }
}
