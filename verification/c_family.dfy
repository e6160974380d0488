/** What the C++, C#, Rust and Go analyzers share outside their parsers:
    the brace-depth complexity scan, the line statistics with C-style
    comments, and the two line-finding rules of their `find_line_number`. */
module CFamily {
  import opened Wrappers
  import opened Strs
  import opened Seqs
  import opened CoreTypes
  import opened TextLines
  import opened Braces
  import opened Scanners

  // ---------------------------------------------------------------------------
  // Complexity
  // ---------------------------------------------------------------------------

  /** The `calculate_complexity` these analyzers share: one, plus every
      keyword occurrence, plus a language's own extra term; the nesting
      depth is the peak brace depth; the record is rated. */
  method BraceComplexity(content: string, kws: seq<string>, extra: nat) returns (c: ComplexityInfo)
    ensures c.cyclomatic == 1 + KeywordTotal(content, kws) + extra
    ensures NoEmptyKeyword(kws) ==>
              (c.cyclomatic == 1 <==> (forall k :: 0 <= k < |kws| ==> !Contains(content, kws[k])) && extra == 0)
    ensures forall i :: 0 <= i <= |content| ==> DepthAfter(content[..i]) <= c.maxNestingDepth
    ensures exists i :: 0 <= i <= |content| && DepthAfter(content[..i]) == c.maxNestingDepth
    ensures c == UpdateRating(c)
  {
    var depth := NestingDepth(content);
    var i := PeakAttained(content);
    if NoEmptyKeyword(kws) {
      OnePlusTotalIff(content, kws, extra);
    }
    c := Rated(1 + KeywordTotal(content, kws) + extra, depth);
  }

  // ---------------------------------------------------------------------------
  // Line statistics
  // ---------------------------------------------------------------------------

  /** The comment test of these analyzers' line statistics: a line comment
      or the opener of a block comment. */
  predicate IsCComment(t: string) {
    StartsWith(t, "//") || StartsWith(t, "/*")
  }

  /** The line-statistics loop of `analyze`, with C-style comments. */
  method LineStatistics(content: string) returns (s: LineStats)
    ensures s.total == |Lines(content)|
    ensures s.empty == CountWhere(IsKind(LineKind.Empty), Kinds(Lines(content), IsCComment))
    ensures s.comment == CountWhere(IsKind(LineKind.Comment), Kinds(Lines(content), IsCComment))
    ensures s.code == CountWhere(IsKind(LineKind.Code), Kinds(Lines(content), IsCComment))
    ensures s.empty + s.comment + s.code == s.total
  {
    s := CountLines(content, IsCComment);
  }

  // ---------------------------------------------------------------------------
  // Line finders
  // ---------------------------------------------------------------------------

  /** The rule for an empty keyword: the trimmed line mentions the name and
      does not open a C-style comment. */
  predicate NameLine(t: string, name: string) {
    Contains(t, name) && !StartsWith(t, "//") && !StartsWith(t, "/*")
  }

  /** The C++ and C# rule for a keyword: the trimmed line starts with the
      keyword, mentions the name, and starts with "keyword name". */
  predicate DeclLine(t: string, kw: string, name: string) {
    StartsWith(t, kw) && Contains(t, name) && StartsWith(t, kw + " " + name)
  }

  /** The Rust and Go rule for a keyword: the trimmed line starts with the
      keyword and mentions the name anywhere. */
  predicate PrefixLine(t: string, kw: string, name: string) {
    StartsWith(t, kw) && Contains(t, name)
  }

  predicate DeclMatch(line: string, kw: string, name: string) {
    var t := Trim(line);
    if kw == "" then NameLine(t, name) else DeclLine(t, kw, name)
  }

  predicate PrefixMatch(line: string, kw: string, name: string) {
    var t := Trim(line);
    if kw == "" then NameLine(t, name) else PrefixLine(t, kw, name)
  }

  function DeclTest(kw: string, name: string): string -> bool {
    (line: string) => DeclMatch(line, kw, name)
  }

  function PrefixTest(kw: string, name: string): string -> bool {
    (line: string) => PrefixMatch(line, kw, name)
  }

  /** The C++ and C# `find_line_number`: the first line the rule accepts. */
  function FindDeclLine(lines: seq<string>, name: string, kw: string): (r: Option<nat>)
    ensures r.Some? ==> 1 <= r.value <= |lines| && DeclMatch(lines[r.value - 1], kw, name)
    ensures r.Some? ==> forall j :: 0 <= j < r.value - 1 ==> !DeclMatch(lines[j], kw, name)
    ensures r.None? <==> forall j :: 0 <= j < |lines| ==> !DeclMatch(lines[j], kw, name)
  {
    FirstLine(lines, DeclTest(kw, name))
  }

  /** The Rust and Go `find_line_number`: the first line the rule accepts. */
  function FindPrefixLine(lines: seq<string>, name: string, kw: string): (r: Option<nat>)
    ensures r.Some? ==> 1 <= r.value <= |lines| && PrefixMatch(lines[r.value - 1], kw, name)
    ensures r.Some? ==> forall j :: 0 <= j < r.value - 1 ==> !PrefixMatch(lines[j], kw, name)
    ensures r.None? <==> forall j :: 0 <= j < |lines| ==> !PrefixMatch(lines[j], kw, name)
  {
    FirstLine(lines, PrefixTest(kw, name))
  }

  /** The first two tests of the C++ and C# rule add nothing: a line
      starting with "keyword name" starts with the keyword and mentions the
      name. */
  lemma {:induction false} DeclLineIff(t: string, kw: string, name: string)
    ensures DeclLine(t, kw, name) <==> StartsWith(t, kw + " " + name)
  {
    var p := kw + " " + name;
    if StartsWith(t, p) {
      assert t[..|kw|] == p[..|kw|] == kw;
      assert t[|kw| + 1..|kw| + 1 + |name|] == p[|kw| + 1..] == name;
      OccursIsSlice(t, name, |kw| + 1);
      ContainsIff(t, name);
    }
  }

  /** The C++ and C# rule is the narrower one: where it finds a line, the
      Rust and Go rule finds the same line or an earlier one. */
  lemma {:induction false} DeclNoEarlierThanPrefix(lines: seq<string>, name: string, kw: string)
    requires FindDeclLine(lines, name, kw).Some?
    ensures FindPrefixLine(lines, name, kw).Some?
    ensures FindPrefixLine(lines, name, kw).value <= FindDeclLine(lines, name, kw).value
  {
    forall j | 0 <= j < |lines| ensures DeclTest(kw, name)(lines[j]) ==> PrefixTest(kw, name)(lines[j]) {
    }
    FirstLineNarrower(lines, DeclTest(kw, name), PrefixTest(kw, name));
  }

  /** With an empty keyword both rules are the same. */
  lemma {:induction false} RulesAgreeWithoutKeyword(lines: seq<string>, name: string)
    ensures FindDeclLine(lines, name, "") == FindPrefixLine(lines, name, "")
  {
    FirstLineSameTest(lines, DeclTest("", name), PrefixTest("", name));
  }
}
