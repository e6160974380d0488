/** Moving a symbol from one file to another in the refactoring tool
    (`nekorefactor/src/moveclass.rs`): the symbol's lines are cut from the
    source (with the comments right above them), blank runs left behind are
    collapsed, and the text is inserted in the target after its header
    lines. The file system is a map from path text to contents; a file is
    read as `str::lines()` and written as the lines joined by "\n". */
module MoveSymbol {
  import opened Wrappers
  import opened Seqs
  import opened Strs
  import opened TextLines
  import opened Langs
  import opened SharedTypes
  import Paths

  type Files = map<string, string>

  datatype MoveOptions = MoveOptions(
    updateImports: bool,
    createTargetIfMissing: bool,
    preserveComments: bool,
    dryRun: bool)

  /** `MoveOptions::default`: imports updated, a missing target created,
      comments carried along, and the move really done. */
  const DefaultOptions: MoveOptions := MoveOptions(true, true, true, false)

  // ---------------------------------------------------------------------------
  // Extracting a symbol
  // ---------------------------------------------------------------------------

  /** A comment line that travels with the symbol below it: after trimming
      it opens a line comment, a block comment or a block comment's
      continuation line. */
  predicate IsCommentLine(l: string) {
    var t := Trim(l);
    StartsWith(t, "//") || StartsWith(t, "/*") || StartsWith(t, "*") || StartsWith(t, "///")
  }

  /** The elements `take` accepts directly above index `k`, in order:
      elements `skip` accepts are passed over without being taken, and the
      first other element ends the run. */
  function TakenAbove<T>(take: T -> bool, skip: T -> bool, s: seq<T>, k: nat): seq<T>
    requires k <= |s|
    decreases k
  {
    if k == 0 then []
    else if take(s[k - 1]) then TakenAbove(take, skip, s, k - 1) + [s[k - 1]]
    else if skip(s[k - 1]) then TakenAbove(take, skip, s, k - 1)
    else []
  }

  /** What `TakenAbove` takes is the filter by `take` of a run `[j, k)` of
      taken and skipped elements that starts at the front or right below an
      element that is neither. */
  lemma {:induction false} TakenAboveRun<T>(take: T -> bool, skip: T -> bool, s: seq<T>, k: nat) returns (j: nat)
    requires k <= |s|
    ensures j <= k && (j == 0 || (!take(s[j - 1]) && !skip(s[j - 1])))
    ensures forall i :: j <= i < k ==> take(s[i]) || skip(s[i])
    ensures TakenAbove(take, skip, s, k) == Filter(take, s[j..k])
    decreases k, 1
  {
    if k == 0 {
      j := 0;
      assert s[0..0] == [];
    } else if take(s[k - 1]) || skip(s[k - 1]) {
      j := TakenAboveStep(take, skip, s, k);
    } else {
      j := k;
      assert s[k..k] == [];
    }
  }

  /** The inductive step of `TakenAboveRun` for an element that is taken or
      skipped. */
  lemma {:induction false} TakenAboveStep<T>(take: T -> bool, skip: T -> bool, s: seq<T>, k: nat) returns (j: nat)
    requires 0 < k <= |s| && (take(s[k - 1]) || skip(s[k - 1]))
    ensures j <= k && (j == 0 || (!take(s[j - 1]) && !skip(s[j - 1])))
    ensures forall i :: j <= i < k ==> take(s[i]) || skip(s[i])
    ensures TakenAbove(take, skip, s, k) == Filter(take, s[j..k])
    decreases k, 0
  {
    j := TakenAboveRun(take, skip, s, k - 1);
    TakenAboveLast(take, skip, s, k);
    FilterLast(take, s, j, k);
    forall i | j <= i < k ensures take(s[i]) || skip(s[i]) {
      if i == k - 1 {
      }
    }
  }

  /** One taken or skipped element adds its filter to the run above it. */
  lemma {:induction false} TakenAboveLast<T>(take: T -> bool, skip: T -> bool, s: seq<T>, k: nat)
    requires 0 < k <= |s| && (take(s[k - 1]) || skip(s[k - 1]))
    ensures TakenAbove(take, skip, s, k) == TakenAbove(take, skip, s, k - 1) + Filter(take, [s[k - 1]])
  {
    assert Filter(take, [s[k - 1]]) == if take(s[k - 1]) then [s[k - 1]] else [];
  }

  /** Filtering a slice is filtering it without its last element, then that
      element. */
  lemma {:induction false} FilterLast<T>(take: T -> bool, s: seq<T>, j: nat, k: nat)
    requires j < k <= |s|
    ensures Filter(take, s[j..k]) == Filter(take, s[j..k - 1]) + Filter(take, [s[k - 1]])
  {
    assert s[j..k] == s[j..k - 1] + [s[k - 1]];
    FilterAppend(take, s[j..k - 1], [s[k - 1]]);
  }

  /** The comment lines directly above index `k`, blank lines passed over. */
  function LeadingComments(ls: seq<string>, k: nat): seq<string>
    requires k <= |ls|
  {
    TakenAbove(IsCommentLine, IsBlank, ls, k)
  }

  /** The backward loop of `extract_symbol_content`: each comment line is
      inserted in front of those already taken. */
  method CollectLeadingComments(ls: seq<string>, start: nat) returns (r: seq<string>)
    requires start <= |ls|
    ensures r == LeadingComments(ls, start)
  {
    r := ScanAbove(IsCommentLine, IsBlank, ls, start);
  }

  /** The scan itself, over any element type: walking up from `start`, a
      taken element goes in front of those already taken, a skipped one is
      passed over, and any other ends the scan. */
  method ScanAbove<T>(take: T -> bool, skip: T -> bool, s: seq<T>, start: nat) returns (r: seq<T>)
    requires start <= |s|
    ensures r == TakenAbove(take, skip, s, start)
  {
    r := [];
    var i := start;
    while i > 0 && (take(s[i - 1]) || skip(s[i - 1]))
      invariant 0 <= i <= start
      invariant TakenAbove(take, skip, s, start) == TakenAbove(take, skip, s, i) + r
    {
      if take(s[i - 1]) {
        TakenAboveTake(take, skip, s, i, r);
        r := [s[i - 1]] + r;
      } else {
        TakenAboveSkip(take, skip, s, i);
      }
      i := i - 1;
    }
    if i > 0 {
      TakenAboveStop(take, skip, s, i);
    }
  }

  /** One step of the backward scan over a taken element. */
  lemma {:induction false} TakenAboveTake<T>(take: T -> bool, skip: T -> bool, s: seq<T>, k: nat, r: seq<T>)
    requires 0 < k <= |s| && take(s[k - 1])
    ensures TakenAbove(take, skip, s, k) + r == TakenAbove(take, skip, s, k - 1) + ([s[k - 1]] + r)
  {
  }

  lemma {:induction false} TakenAboveSkip<T>(take: T -> bool, skip: T -> bool, s: seq<T>, k: nat)
    requires 0 < k <= |s| && !take(s[k - 1]) && skip(s[k - 1])
    ensures TakenAbove(take, skip, s, k) == TakenAbove(take, skip, s, k - 1)
  {
  }

  lemma {:induction false} TakenAboveStop<T>(take: T -> bool, skip: T -> bool, s: seq<T>, k: nat)
    requires 0 < k <= |s| && !take(s[k - 1]) && !skip(s[k - 1])
    ensures TakenAbove(take, skip, s, k) == []
  {
  }

  /** The comments taken are exactly the comment lines of a run `[j, k)` of
      comment and blank lines that starts at the top of the file or right
      below a line that is neither. */
  lemma {:induction false} LeadingCommentsSpec(ls: seq<string>, k: nat)
    requires k <= |ls|
    ensures exists j :: 0 <= j <= k && (j == 0 || (!IsCommentLine(ls[j - 1]) && !IsBlank(ls[j - 1])))
              && (forall i :: j <= i < k ==> IsCommentLine(ls[i]) || IsBlank(ls[i]))
              && LeadingComments(ls, k) == Filter(IsCommentLine, ls[j..k])
  {
    var j := TakenAboveRun(IsCommentLine, IsBlank, ls, k);
  }

  /** `(line_start as usize).saturating_sub(1)`. */
  function StartIndex(sym: SymbolInfo): nat {
    if sym.lineStart == 0 then 0 else sym.lineStart - 1
  }

  /** The lines `extract_symbol_content` joins: the symbol's lines
      `[line_start - 1, line_end)`, after the comments above them when
      comments are preserved. An end past the file is an error; a start past
      the end makes the slice panic, an error here too. */
  function ExtractedLines(ls: seq<string>, sym: SymbolInfo, preserveComments: bool): (r: Result<seq<string>>)
    ensures r.Err? <==> sym.lineEnd > |ls| || StartIndex(sym) > sym.lineEnd
    ensures r.Ok? ==> |r.value| >= sym.lineEnd - StartIndex(sym)
                      && r.value[|r.value| - (sym.lineEnd - StartIndex(sym))..] == ls[StartIndex(sym)..sym.lineEnd]
  {
    var s, e := StartIndex(sym), sym.lineEnd;
    if e > |ls| then Err("Symbol line range out of bounds")
    else if s > e then Err("slice index starts after its end")
    else
      var comments := if preserveComments && s > 0 then LeadingComments(ls, s) else [];
      Ok(comments + ls[s..e])
  }

  /** What precedes the symbol's own lines is a run of comment lines taken
      from above it, and nothing precedes them when comments are not kept. */
  lemma {:induction false} ExtractedLinesSpec(ls: seq<string>, sym: SymbolInfo, preserveComments: bool)
    requires ExtractedLines(ls, sym, preserveComments).Ok?
    ensures var r := ExtractedLines(ls, sym, preserveComments).value;
            var c := |r| - (sym.lineEnd - StartIndex(sym));
            (forall i :: 0 <= i < c ==> IsCommentLine(r[i]))
            && IsSubseq(r[..c], ls[..StartIndex(sym)])
            && (!preserveComments ==> c == 0)
  {
    var s := StartIndex(sym);
    var r := ExtractedLines(ls, sym, preserveComments).value;
    var c := |r| - (sym.lineEnd - s);
    if preserveComments && s > 0 {
      var j := TakenAboveRun(IsCommentLine, IsBlank, ls, s);
      var cs := LeadingComments(ls, s);
      assert r[..c] == cs;
      FilterIsSubseq(IsCommentLine, ls[j..s]);
      SubseqOfSuffix(cs, ls[..s], j);
      forall i | 0 <= i < c ensures IsCommentLine(r[i]) {
        assert r[i] in Filter(IsCommentLine, ls[j..s]);
      }
    } else {
      assert c == 0;
      assert r[..c] == [];
    }
  }

  // ---------------------------------------------------------------------------
  // Removing a symbol
  // ---------------------------------------------------------------------------

  function Min(a: nat, b: nat): nat { if a <= b then a else b }

  /** The lines whose index lies outside `[s, e)`; no bound is checked, so a
      range past the end removes only what exists. */
  function KeptOutside(ls: seq<string>, s: nat, e: nat): seq<string> {
    if e <= s then ls else ls[..Min(s, |ls|)] + ls[Min(e, |ls|)..]
  }

  /** The loop of `remove_symbol_from_file`: a line is kept when its index
      is below `s` or at least `e`. */
  method KeepOutside(ls: seq<string>, s: nat, e: nat) returns (r: seq<string>)
    ensures r == KeptOutside(ls, s, e)
  {
    r := [];
    var i := 0;
    var a, b := Min(s, |ls|), Min(e, |ls|);
    while i < |ls|
      invariant 0 <= i <= |ls|
      invariant e <= s ==> r == ls[..i]
      invariant s < e ==> r == ls[..Min(i, a)] + (if i > b then ls[b..i] else [])
    {
      if i < s || i >= e {
        r := r + [ls[i]];
      }
      i := i + 1;
    }
    assert ls[..|ls|] == ls;
  }

  /** What extraction takes and removal keeps make up the file again: the
      kept lines split where the block was, with the block put back. */
  lemma {:induction false} RemovedAndExtractedReassemble(ls: seq<string>, sym: SymbolInfo)
    requires StartIndex(sym) <= sym.lineEnd <= |ls|
    ensures var s := StartIndex(sym);
            var kept := KeptOutside(ls, s, sym.lineEnd);
            var block := ExtractedLines(ls, sym, false).value;
            kept[..s] + block + kept[s..] == ls
  {
    var s, e := StartIndex(sym), sym.lineEnd;
    var kept := KeptOutside(ls, s, e);
    if s < e {
      assert kept[..s] == ls[..s];
      assert kept[s..] == ls[e..];
    } else {
      assert ls[s..e] == [];
    }
    assert ls[..s] + ls[s..e] + ls[e..] == ls;
  }

  /** Drops every `blank` element that follows a kept `blank` element;
      `prev` says whether the last kept element was blank. */
  function Collapse<T>(blank: T -> bool, s: seq<T>, prev: bool): seq<T>
    decreases |s|
  {
    if |s| == 0 then []
    else if blank(s[0]) && prev then Collapse(blank, s[1..], true)
    else [s[0]] + Collapse(blank, s[1..], blank(s[0]))
  }

  /** No two neighbouring elements are both `blank`. */
  predicate NoDouble<T>(blank: T -> bool, s: seq<T>) {
    forall k :: 0 <= k < |s| - 1 ==> !(blank(s[k]) && blank(s[k + 1]))
  }

  /** The result never holds two blank elements in a row, and after a blank
      element it does not start with another. */
  lemma {:induction false} CollapseNoDouble<T>(blank: T -> bool, s: seq<T>, prev: bool)
    ensures NoDouble(blank, Collapse(blank, s, prev))
    ensures prev && |Collapse(blank, s, prev)| > 0 ==> !blank(Collapse(blank, s, prev)[0])
    decreases |s|
  {
    if |s| > 0 {
      var b := blank(s[0]);
      if b && prev {
        CollapseNoDouble(blank, s[1..], true);
      } else {
        CollapseNoDouble(blank, s[1..], b);
        var rest := Collapse(blank, s[1..], b);
        var r := [s[0]] + rest;
        forall k | 0 <= k < |r| - 1 ensures !(blank(r[k]) && blank(r[k + 1])) {
          if k > 0 {
            assert r[k] == rest[k - 1] && r[k + 1] == rest[k];
          }
        }
      }
    }
  }

  /** Only blank elements are dropped, so a filter that rejects every blank
      element sees the same elements before and after. */
  lemma {:induction false} CollapseKeeps<T>(blank: T -> bool, keep: T -> bool, s: seq<T>, prev: bool)
    requires forall x :: blank(x) ==> !keep(x)
    ensures Filter(keep, Collapse(blank, s, prev)) == Filter(keep, s)
    decreases |s|
  {
    if |s| > 0 {
      var b := blank(s[0]);
      if b && prev {
        CollapseKeeps(blank, keep, s[1..], true);
      } else {
        CollapseKeeps(blank, keep, s[1..], b);
        var rest := Collapse(blank, s[1..], b);
        assert ([s[0]] + rest)[1..] == rest;
      }
    }
  }

  /** Collapsing only deletes elements. */
  lemma {:induction false} CollapseIsSubseq<T>(blank: T -> bool, s: seq<T>, prev: bool)
    ensures IsSubseq(Collapse(blank, s, prev), s)
    decreases |s|
  {
    if |s| > 0 {
      var b := blank(s[0]);
      var r := Collapse(blank, s, prev);
      if b && prev {
        CollapseIsSubseq(blank, s[1..], true);
        SubseqSkip(r, s);
      } else {
        CollapseIsSubseq(blank, s[1..], b);
        assert r[1..] == Collapse(blank, s[1..], b);
      }
    }
  }

  /** Input without blank runs comes back unchanged. */
  lemma {:induction false} CollapseIdentity<T>(blank: T -> bool, s: seq<T>, prev: bool)
    requires NoDouble(blank, s)
    requires prev && |s| > 0 ==> !blank(s[0])
    ensures Collapse(blank, s, prev) == s
    decreases |s|
  {
    if |s| > 0 {
      forall k | 0 <= k < |s| - 2 ensures !(blank(s[1..][k]) && blank(s[1..][k + 1])) {
        assert s[1..][k] == s[k + 1] && s[1..][k + 1] == s[k + 2];
      }
      CollapseIdentity(blank, s[1..], blank(s[0]));
      assert s == [s[0]] + s[1..];
    }
  }

  /** A line that carries text: one that is not blank. */
  predicate IsTextLine(l: string) { !IsBlank(l) }

  /** `remove_extra_blank_lines` on lines: a blank line right after a kept
      blank line is dropped. */
  function CollapseBlanks(ls: seq<string>): seq<string> {
    Collapse(IsBlank, ls, false)
  }

  /** The loop of `remove_extra_blank_lines`. */
  method CollapseBlankRuns(ls: seq<string>) returns (r: seq<string>)
    ensures r == CollapseBlanks(ls)
  {
    var blank: string -> bool := IsBlank;
    r := [];
    var prevBlank := false;
    var i := 0;
    while i < |ls|
      invariant 0 <= i <= |ls|
      invariant CollapseBlanks(ls) == r + Collapse(blank, ls[i..], prevBlank)
    {
      var line := ls[i];
      var isBlank := blank(line);
      assert ls[i..][1..] == ls[i + 1..];
      if isBlank && prevBlank {
        i := i + 1;
        continue;
      }
      assert Collapse(blank, ls[i..], prevBlank) == [line] + Collapse(blank, ls[i + 1..], isBlank);
      SeqAssoc(r, [line], Collapse(blank, ls[i + 1..], isBlank));
      r := r + [line];
      prevBlank := isBlank;
      i := i + 1;
    }
  }

  /** After collapsing no two blank lines are neighbours, every line with
      text survives in order, nothing is added, and a second pass changes
      nothing. */
  lemma {:induction false} CollapseBlanksSpec(ls: seq<string>)
    ensures NoDouble(IsBlank, CollapseBlanks(ls))
    ensures Filter(IsTextLine, CollapseBlanks(ls)) == Filter(IsTextLine, ls)
    ensures IsSubseq(CollapseBlanks(ls), ls)
    ensures CollapseBlanks(CollapseBlanks(ls)) == CollapseBlanks(ls)
  {
    CollapseNoDouble(IsBlank, ls, false);
    CollapseKeeps(IsBlank, IsTextLine, ls, false);
    CollapseIsSubseq(IsBlank, ls, false);
    CollapseIdentity(IsBlank, CollapseBlanks(ls), false);
  }

  /** `remove_extra_blank_lines` on text: read as lines, collapse, join. */
  function RemoveExtraBlankLines(content: string): string {
    Join(CollapseBlanks(Lines(content)))
  }

  /** On text whose collapsed lines survive a write and a re-read, a second
      pass changes nothing. */
  lemma {:induction false} RemoveExtraBlankLinesIdempotent(content: string)
    requires Stable(CollapseBlanks(Lines(content)))
    ensures RemoveExtraBlankLines(RemoveExtraBlankLines(content)) == RemoveExtraBlankLines(content)
  {
    var c := CollapseBlanks(Lines(content));
    LinesOfJoin(c);
    CollapseBlanksSpec(Lines(content));
  }

  /** `remove_symbol_from_file` on the text of the source file. */
  function RemoveSymbolFromFile(content: string, sym: SymbolInfo): string {
    RemoveExtraBlankLines(Join(KeptOutside(Lines(content), StartIndex(sym), sym.lineEnd)))
  }

  // ---------------------------------------------------------------------------
  // Adding a symbol
  // ---------------------------------------------------------------------------

  /** A line `find_insertion_point` skips for the language: module docs,
      `use` and `mod` in Rust; imports, `const` and comments in JavaScript
      and TypeScript; imports and comments in Python; comments and blank
      lines otherwise. */
  predicate IsHeaderLine(lang: Language, l: string) {
    var t := Trim(l);
    match lang
    case Rust => StartsWith(t, "//!") || StartsWith(t, "use ") || StartsWith(t, "mod ")
    case JavaScript | TypeScript => StartsWith(t, "import ") || StartsWith(t, "const ") || StartsWith(t, "//")
    case Python => StartsWith(t, "import ") || StartsWith(t, "from ") || StartsWith(t, "#")
    case _ => StartsWith(t, "//") || StartsWith(t, "/*") || t == ""
  }

  /** `IsHeaderLine` for one language, as a test on lines. */
  function HeaderTest(lang: Language): string -> bool {
    l => IsHeaderLine(lang, l)
  }

  /** The number of header lines the file starts with. */
  function HeaderPrefix(ls: seq<string>, lang: Language): nat {
    PrefixWhile(HeaderTest(lang), ls)
  }

  /** `find_insertion_point`: header lines are skipped from the top (for
      Rust, JavaScript, TypeScript and Python while still in the header,
      otherwise until the first other line), and the insertion point is the
      line after the last header line. */
  method FindInsertionPoint(content: string, lang: Language) returns (idx: nat)
    ensures idx <= |Lines(content)|
    ensures forall j :: 0 <= j < idx ==> IsHeaderLine(lang, Lines(content)[j])
    ensures idx < |Lines(content)| ==> !IsHeaderLine(lang, Lines(content)[idx])
    ensures idx == HeaderPrefix(Lines(content), lang)
  {
    var ls := Lines(content);
    var isHeader := HeaderTest(lang);
    idx := 0;
    var inHeader := true;
    var i := 0;
    while i < |ls|
      invariant 0 <= i <= |ls| && idx == i && inHeader
      invariant PrefixWhile(isHeader, ls) == i + PrefixWhile(isHeader, ls[i..])
    {
      assert ls[i..][1..] == ls[i + 1..];
      var special := lang.Rust? || lang.JavaScript? || lang.TypeScript? || lang.Python?;
      if special {
        if inHeader && isHeader(ls[i]) {
          idx := i + 1;
        } else {
          inHeader := false;
        }
      } else {
        if isHeader(ls[i]) {
          idx := i + 1;
        } else {
          break;
        }
      }
      if !inHeader {
        break;
      }
      i := i + 1;
    }
    PrefixWhileSpec(isHeader, ls);
  }

  /** The file name of a path, "unknown" when it has none. */
  function FileNameOr(path: string): string {
    match Paths.FileName(path)
    case Some(n) => n
    case None => "unknown"
  }

  /** `generate_file_header`: a fixed template per language around the file
      name, and nothing for a language without one. */
  function GenerateFileHeader(path: string, lang: Language): string {
    var name := FileNameOr(path);
    match lang
    case Rust => "//! " + name + "\n\n"
    case JavaScript | TypeScript => "/**\n * " + name + "\n */\n"
    case Python => "\"\"\"\n" + name + "\n\"\"\"\n"
    case Go => "// Package main - " + name + "\npackage main\n"
    case Cpp | C => "/**\n * " + name + "\n */\n\n#pragma once\n"
    case CSharp => "// " + name + "\n\nusing System;\n"
    case Unknown => ""
  }

  /** The header is empty exactly for a language without a template, and
      every template names the file. */
  lemma {:induction false} HeaderNamesFile(path: string, lang: Language)
    ensures GenerateFileHeader(path, lang) == "" <==> lang == Unknown
    ensures lang != Unknown ==> Contains(GenerateFileHeader(path, lang), FileNameOr(path))
  {
    var name := FileNameOr(path);
    var h := GenerateFileHeader(path, lang);
    var at: nat := match lang
      case Rust => 4
      case JavaScript | TypeScript => 7
      case Python => 4
      case Go => 18
      case Cpp | C => 7
      case CSharp => 3
      case Unknown => 0;
    if lang != Unknown {
      assert h[at..at + |name|] == name;
      OccursIsSlice(h, name, at);
      ContainsIff(h, name);
    }
  }

  /** The text of the target after `add_symbol_to_file`, as written: the
      insertion point (a line index) is compared with the file's length in
      bytes to decide whether to append after a blank line. */
  function AddedContentAsWritten(existing: string, symbol: string, lang: Language): string {
    var ip := HeaderPrefix(Lines(existing), lang);
    if ip == |existing| then existing + "\n\n" + symbol
    else
      var ls := Lines(existing);
      Join(ls[..ip] + [symbol] + ls[ip..])
  }

  /** The same step comparing the insertion point with the number of lines,
      so that a file made only of header lines gets the symbol appended after
      a blank line. */
  function AddedContent(existing: string, symbol: string, lang: Language): string {
    var ls := Lines(existing);
    var ip := HeaderPrefix(ls, lang);
    if ip == |ls| then existing + "\n\n" + symbol
    else Join(ls[..ip] + [symbol] + ls[ip..])
  }

  /** When the file's lines are header lines up to index `n` and line `n`
      (if any) is not, the symbol becomes a line of its own at index `n`; a
      file made only of header lines gets it after a blank line at the end. */
  lemma {:induction false} AddedContentSpec(existing: string, symbol: string, lang: Language, n: nat)
    requires n <= |Lines(existing)|
    requires forall j :: 0 <= j < n ==> IsHeaderLine(lang, Lines(existing)[j])
    requires n < |Lines(existing)| ==> !IsHeaderLine(lang, Lines(existing)[n])
    ensures var ls := Lines(existing);
            AddedContent(existing, symbol, lang)
              == if n == |ls| then existing + "\n\n" + symbol else Join(ls[..n] + [symbol] + ls[n..])
  {
    PrefixWhileUnique(HeaderTest(lang), Lines(existing), n);
  }

  /** As written, with the header lines ending at index `n`: the symbol is
      appended after a blank line only when `n` equals the file's length in
      characters, and otherwise becomes a line of its own at index `n`. */
  lemma {:induction false} AddedContentAsWrittenSpec(existing: string, symbol: string, lang: Language, n: nat)
    requires n <= |Lines(existing)|
    requires forall j :: 0 <= j < n ==> IsHeaderLine(lang, Lines(existing)[j])
    requires n < |Lines(existing)| ==> !IsHeaderLine(lang, Lines(existing)[n])
    ensures var ls := Lines(existing);
            AddedContentAsWritten(existing, symbol, lang)
              == if n == |existing| then existing + "\n\n" + symbol else Join(ls[..n] + [symbol] + ls[n..])
  {
    PrefixWhileUnique(HeaderTest(lang), Lines(existing), n);
  }

  /** A one-line Rust file holding only a `use` line: the code as written
      puts the symbol on the next line with no blank line between, where the
      append branch (and the corrected step) leaves a blank line. */
  lemma {:induction false} AsWrittenSkipsBlankLine()
    ensures AddedContentAsWritten("use a;", "fn f() {}", Rust) == "use a;" + "\n" + "fn f() {}"
    ensures AddedContent("use a;", "fn f() {}", Rust) == "use a;" + "\n\n" + "fn f() {}"
  {
    var e, f := "use a;", "fn f() {}";
    OneUseLine(e);
    var ls := Lines(e);
    assert ls[..1] + [f] + ls[1..] == [e, f];
    assert JoinWith([e, f], "\n") == e + "\n" + JoinWith([f], "\n");
  }

  /** "use a;" is a file of one Rust header line. */
  lemma {:induction false} OneUseLine(e: string)
    requires e == "use a;"
    ensures Lines(e) == [e] && HeaderPrefix(Lines(e), Rust) == 1
  {
    LinesOfOneLine(e);
    UseLineIsHeader(e);
    PrefixWhileUnique(HeaderTest(Rust), [e], 1);
  }

  lemma {:induction false} UseLineIsHeader(e: string)
    requires e == "use a;"
    ensures HeaderTest(Rust)(e)
  {
    TrimKeeps(e);
    assert e[..4] == "use ";
  }

  /** Text with no whitespace at either end is its own trim. */
  lemma {:induction false} TrimKeeps(s: string)
    requires |s| > 0 && !IsWhitespace(s[0]) && !IsWhitespace(s[|s| - 1])
    ensures Trim(s) == s
  {
    assert LeadingWs(s) == 0;
    assert s[0..] == s;
    assert TrailingWs(s) == 0;
  }

  /** `add_symbol_to_file` on the file map, with the insertion step as
      written: a missing target is created with a header, or refused when
      creating is off. */
  function AddSymbolToFile(files: Files, path: string, symbol: string, lang: Language, create: bool): (r: Result<Files>)
    ensures r.Err? <==> path !in files && !create
    ensures r.Ok? ==> r.value.Keys == files.Keys + {path}
    ensures r.Ok? ==> forall p :: p in files && p != path ==> r.value[p] == files[p]
    ensures r.Ok? && path !in files ==> r.value[path] == GenerateFileHeader(path, lang) + "\n\n" + symbol
    ensures r.Ok? && path in files ==> r.value[path] == AddedContentAsWritten(files[path], symbol, lang)
  {
    if path !in files then
      if create then Ok(files[path := GenerateFileHeader(path, lang) + "\n\n" + symbol])
      else Err("Target file does not exist: " + path)
    else Ok(files[path := AddedContentAsWritten(files[path], symbol, lang)])
  }

  // ---------------------------------------------------------------------------
  // The whole move
  // ---------------------------------------------------------------------------

  datatype MoveResult = MoveResult(
    symbolName: string,
    symbolType: SymbolType,
    sourceFile: string,
    targetFile: string,
    linesMoved: nat,
    importsUpdated: seq<string>,
    success: bool)

  /** Symbol `j` of result `i` has the id, and no symbol before it (earlier
      results first, then earlier symbols of the same result) does. */
  predicate IsFirstWithId(results: seq<AnalysisResult>, id: string, i: nat, j: nat) {
    i < |results| && j < |results[i].symbols| && results[i].symbols[j].id == id
    && (forall i2, j2 :: 0 <= i2 < i && 0 <= j2 < |results[i2].symbols| ==> results[i2].symbols[j2].id != id)
    && (forall j2 :: 0 <= j2 < j ==> results[i].symbols[j2].id != id)
  }

  /** `find_symbol_in_session`: the first symbol with the id, results in
      order and symbols in order within each; an error when none has it. */
  function FindSymbolInSession(results: seq<AnalysisResult>, id: string): (r: Result<SymbolInfo>)
    ensures r.Ok? ==> exists i: nat, j: nat :: IsFirstWithId(results, id, i, j) && results[i].symbols[j] == r.value
    ensures r.Err? <==> forall i, j :: 0 <= i < |results| && 0 <= j < |results[i].symbols| ==> results[i].symbols[j].id != id
    ensures r.Err? ==> r.msg == "Symbol not found: " + id
    decreases |results|
  {
    if |results| == 0 then Err("Symbol not found: " + id)
    else
      match GetSymbolById(results[0], id)
      case Some(s) =>
        var k :| 0 <= k < |results[0].symbols| && results[0].symbols[k] == s
                 && (forall j :: 0 <= j < k ==> results[0].symbols[j].id != id);
        assert IsFirstWithId(results, id, 0, k);
        Ok(s)
      case None =>
        var rest := FindSymbolInSession(results[1..], id);
        FindInTail(results, id, rest);
        rest
  }

  /** When the first result has no symbol with the id, the search of the
      remaining results answers for the whole sequence. */
  lemma {:induction false} FindInTail(results: seq<AnalysisResult>, id: string, rest: Result<SymbolInfo>)
    requires |results| > 0 && GetSymbolById(results[0], id).None?
    requires rest.Ok? ==> exists i: nat, j: nat :: IsFirstWithId(results[1..], id, i, j) && results[1..][i].symbols[j] == rest.value
    requires rest.Err? <==> forall i, j :: 0 <= i < |results[1..]| && 0 <= j < |results[1..][i].symbols| ==> results[1..][i].symbols[j].id != id
    ensures rest.Ok? ==> exists i: nat, j: nat :: IsFirstWithId(results, id, i, j) && results[i].symbols[j] == rest.value
    ensures rest.Err? <==> forall i, j :: 0 <= i < |results| && 0 <= j < |results[i].symbols| ==> results[i].symbols[j].id != id
  {
    var tail := results[1..];
    if rest.Ok? {
      var i: nat, j: nat :| IsFirstWithId(tail, id, i, j) && tail[i].symbols[j] == rest.value;
      FirstInTail(results, id, i, j);
    } else {
      NoneInTail(results, id);
    }
  }

  lemma {:induction false} FirstInTail(results: seq<AnalysisResult>, id: string, i: nat, j: nat)
    requires |results| > 0 && GetSymbolById(results[0], id).None?
    requires IsFirstWithId(results[1..], id, i, j)
    ensures IsFirstWithId(results, id, i + 1, j) && results[i + 1] == results[1..][i]
  {
    var tail := results[1..];
    forall i2, j2 | 0 <= i2 < i + 1 && 0 <= j2 < |results[i2].symbols|
      ensures results[i2].symbols[j2].id != id
    {
      if i2 > 0 {
        assert results[i2] == tail[i2 - 1];
      }
    }
  }

  lemma {:induction false} NoneInTail(results: seq<AnalysisResult>, id: string)
    requires |results| > 0 && GetSymbolById(results[0], id).None?
    ensures (forall i, j :: 0 <= i < |results[1..]| && 0 <= j < |results[1..][i].symbols| ==> results[1..][i].symbols[j].id != id)
            <==> (forall i, j :: 0 <= i < |results| && 0 <= j < |results[i].symbols| ==> results[i].symbols[j].id != id)
  {
    var tail := results[1..];
    assert forall i :: 1 <= i < |results| ==> results[i] == tail[i - 1];
  }

  /** The symbol to move and the text extracted for it. */
  datatype Extraction = Extraction(sym: SymbolInfo, content: string)

  /** The checks of `move_symbol` before anything is written: the symbol is
      found, its file is read (a missing file is the read error), its text is
      extracted, and a missing target is accepted only when it may be
      created. */
  function Prepare(files: Files, results: seq<AnalysisResult>, symbolId: string, target: string,
                   preserveComments: bool, create: bool): (r: Result<Extraction>)
    ensures r.Ok? <==> FindSymbolInSession(results, symbolId).Ok?
                       && FindSymbolInSession(results, symbolId).value.filePath in files
                       && ExtractedLines(Lines(files[FindSymbolInSession(results, symbolId).value.filePath]),
                                         FindSymbolInSession(results, symbolId).value, preserveComments).Ok?
                       && (target in files || create)
    ensures r.Ok? ==> r.value.sym == FindSymbolInSession(results, symbolId).value
                      && r.value.content == Join(ExtractedLines(Lines(files[r.value.sym.filePath]), r.value.sym, preserveComments).value)
  {
    match FindSymbolInSession(results, symbolId)
    case Err(m) => Err(m)
    case Ok(sym) =>
      if sym.filePath !in files then Err("No such file: " + sym.filePath)
      else
        match ExtractedLines(Lines(files[sym.filePath]), sym, preserveComments)
        case Err(m) => Err(m)
        case Ok(block) =>
          if target !in files && !create then Err("Target file does not exist: " + target)
          else Ok(Extraction(sym, Join(block)))
  }

  /** `perform_move`: the symbol is removed from its file, then added to the
      target; when the target is the symbol's own file, the addition reads
      the text already rewritten without the symbol. */
  function Perform(files: Files, x: Extraction, target: string, create: bool): (r: Result<Files>)
    requires x.sym.filePath in files
    ensures r.Err? <==> target !in files && !create
    ensures r.Ok? ==> r.value.Keys == files.Keys + {target}
    ensures r.Ok? ==> forall p :: p in files && p != target && p != x.sym.filePath ==> r.value[p] == files[p]
    ensures r.Ok? && target != x.sym.filePath ==> r.value[x.sym.filePath] == RemoveSymbolFromFile(files[x.sym.filePath], x.sym)
    ensures r.Ok? && target != x.sym.filePath ==>
              r.value[target] == if target in files then AddedContentAsWritten(files[target], x.content, x.sym.language)
                                 else GenerateFileHeader(target, x.sym.language) + "\n\n" + x.content
    ensures r.Ok? && target == x.sym.filePath ==>
              r.value[target] == AddedContentAsWritten(RemoveSymbolFromFile(files[target], x.sym), x.content, x.sym.language)
  {
    var removed := files[x.sym.filePath := RemoveSymbolFromFile(files[x.sym.filePath], x.sym)];
    assert removed.Keys == files.Keys;
    assert target != x.sym.filePath ==> (target in removed <==> target in files) && (target in files ==> removed[target] == files[target]);
    AddSymbolToFile(removed, target, x.content, x.sym.language, create)
  }

  /** `move_symbol`: prepare, then unless it is a dry run perform the move.
      Import updating finds nothing to update. */
  function Move(files: Files, results: seq<AnalysisResult>, symbolId: string, target: string, opts: MoveOptions)
    : (r: Result<(MoveResult, Files)>)
  {
    match Prepare(files, results, symbolId, target, opts.preserveComments, opts.createTargetIfMissing)
    case Err(m) => Err(m)
    case Ok(x) =>
      var res := MoveResult(x.sym.name, x.sym.symbolType, x.sym.filePath, target, |Lines(x.content)|, [], true);
      if opts.dryRun then Ok((res, files))
      else
        match Perform(files, x, target, opts.createTargetIfMissing)
        case Err(m) => Err(m)
        case Ok(written) => Ok((res, written))
  }

  /** A dry run writes nothing and reports success with no imports updated. */
  lemma {:induction false} MoveDryRunWritesNothing(files: Files, results: seq<AnalysisResult>, symbolId: string, target: string, opts: MoveOptions)
    requires opts.dryRun && Move(files, results, symbolId, target, opts).Ok?
    ensures var r := Move(files, results, symbolId, target, opts).value;
            r.1 == files && r.0.success && r.0.importsUpdated == []
  {
  }

  /** The dry run succeeds exactly when the real move does, and exactly when
      the symbol is found, its lines are in range and the target exists or
      may be created. */
  lemma {:induction false} MoveDryRunAgrees(files: Files, results: seq<AnalysisResult>, symbolId: string, target: string, opts: MoveOptions)
    ensures Move(files, results, symbolId, target, opts.(dryRun := true)).Ok?
            <==> Move(files, results, symbolId, target, opts.(dryRun := false)).Ok?
    ensures Move(files, results, symbolId, target, opts).Ok?
            <==> Prepare(files, results, symbolId, target, opts.preserveComments, opts.createTargetIfMissing).Ok?
  {
    var x := Prepare(files, results, symbolId, target, opts.preserveComments, opts.createTargetIfMissing);
    if x.Ok? {
      var p := Perform(files, x.value, target, opts.createTargetIfMissing);
      assert p.Ok?;
    }
  }

  /** A real move writes the source and the target and nothing else, the
      target then exists, the source loses the symbol's lines and the target
      gains the extracted text by the insertion step as written; a move into
      the symbol's own file inserts it into the text without the symbol. */
  lemma {:induction false} MoveWritesOnlyEnds(files: Files, results: seq<AnalysisResult>, symbolId: string, target: string, opts: MoveOptions)
    requires !opts.dryRun && Move(files, results, symbolId, target, opts).Ok?
    ensures var r := Move(files, results, symbolId, target, opts).value;
            var sym := FindSymbolInSession(results, symbolId).value;
            var text := Join(ExtractedLines(Lines(files[sym.filePath]), sym, opts.preserveComments).value);
            r.0.sourceFile == sym.filePath && r.0.targetFile == target
            && r.1.Keys == files.Keys + {target}
            && (forall p :: p in files && p != target && p != sym.filePath ==> r.1[p] == files[p])
            && (target != sym.filePath ==>
                  r.1[sym.filePath] == RemoveSymbolFromFile(files[sym.filePath], sym)
                  && r.1[target] == if target in files then AddedContentAsWritten(files[target], text, sym.language)
                                    else GenerateFileHeader(target, sym.language) + "\n\n" + text)
            && (target == sym.filePath ==>
                  r.1[target] == AddedContentAsWritten(RemoveSymbolFromFile(files[target], sym), text, sym.language))
  {
    var x := Prepare(files, results, symbolId, target, opts.preserveComments, opts.createTargetIfMissing).value;
    var p := Perform(files, x, target, opts.createTargetIfMissing);
    assert Move(files, results, symbolId, target, opts).value.1 == p.value;
  }

  /** The line count a move reports is the number of extracted lines when
      those lines survive being joined and read back. */
  lemma {:induction false} LinesMovedCount(files: Files, results: seq<AnalysisResult>, symbolId: string, target: string, opts: MoveOptions)
    requires Move(files, results, symbolId, target, opts).Ok?
    requires var sym := FindSymbolInSession(results, symbolId).value;
             Stable(ExtractedLines(Lines(files[sym.filePath]), sym, opts.preserveComments).value)
    ensures var sym := FindSymbolInSession(results, symbolId).value;
            Move(files, results, symbolId, target, opts).value.0.linesMoved
              == |ExtractedLines(Lines(files[sym.filePath]), sym, opts.preserveComments).value|
  {
    var sym := FindSymbolInSession(results, symbolId).value;
    LinesOfJoin(ExtractedLines(Lines(files[sym.filePath]), sym, opts.preserveComments).value);
  }
}
