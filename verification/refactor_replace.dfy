/** Literal search and replacement of the refactoring tool
    (`nekorefactor/src/replace.rs`), without the regular-expression paths.
    Case-insensitive search lowercases ASCII letters only, so offsets into
    the lowered text are offsets into the original. */
module RefactorReplace {
  import opened Wrappers
  import opened Strs
  import opened TextLines
  import opened Seqs
  import Preview

  type MatchInfo = Preview.MatchInfo

  datatype Options = Options(caseSensitive: bool, wholeWord: bool)

  /** `ReplaceOptions::default()` as far as literal search goes. */
  const Defaults := Options(true, false)

  /** The text a search compares: lowered unless case-sensitive. */
  function SearchText(opts: Options, s: string): (r: string)
    ensures |r| == |s|
  {
    if opts.caseSensitive then s else Lower(s)
  }

  predicate WordChar(c: char) {
    IsAlphanumeric(c) || c == '_'
  }

  /** `is_word_boundary`: the span `[start, end)` is not glued to a word
      character on either side. */
  function IsWordBoundary(text: string, start: nat, end: nat): (b: bool)
    requires start <= |text|
    ensures b <==> (start == 0 || !WordChar(text[start - 1])) && (end >= |text| || !WordChar(text[end]))
  {
    if start > 0 && WordChar(text[start - 1]) then false
    else if end < |text| && WordChar(text[end]) then false
    else true
  }

  // ---------------------------------------------------------------------------
  // Searching the rest of a text
  // ---------------------------------------------------------------------------

  /** The first occurrence of `t` at or after offset `from` of `s`, as an
      offset of `s`. */
  function FindFrom(s: string, t: string, from: nat): (r: Option<nat>)
    requires from <= |s|
    ensures r.Some? ==> from <= r.value && Occurs(s, t, r.value)
    decreases |s| - from
  {
    if from + |t| > |s| then None
    else if Occurs(s, t, from) then Some(from)
    else FindFrom(s, t, from + 1)
  }

  /** Nothing occurs between `from` and what `FindFrom` returns, and nothing
      at all when it returns None. */
  lemma {:induction false} FindFromFirst(s: string, t: string, from: nat)
    requires from <= |s|
    ensures FindFrom(s, t, from).Some? ==> forall k :: from <= k < FindFrom(s, t, from).value ==> !Occurs(s, t, k)
    ensures FindFrom(s, t, from).None? ==> forall k :: from <= k ==> !Occurs(s, t, k)
    decreases |s| - from
  {
    if from + |t| <= |s| && !Occurs(s, t, from) {
      FindFromFirst(s, t, from + 1);
    }
  }

  /** `str::find` on the rest of the text from `from`, in the text's own
      offsets. */
  lemma {:induction false} FindIsFindFrom(s: string, t: string, from: nat)
    requires from <= |s|
    ensures Find(s[from..], t).None? <==> FindFrom(s, t, from).None?
    ensures Find(s[from..], t).Some? ==> FindFrom(s, t, from) == Some(from + Find(s[from..], t).value)
  {
    FindFromFirst(s, t, from);
    var f := Find(s[from..], t);
    if f.None? {
      FoundNone(s, t, from);
    } else {
      FoundFirst(s, t, from, f.value);
    }
  }

  /** One `find` on the rest of the text from `start`: the occurrence it
      returns is the first at or after `start`. */
  lemma {:induction false} FoundFirst(s: string, t: string, start: nat, pos: nat)
    requires start <= |s| && Find(s[start..], t) == Some(pos)
    ensures start + pos + |t| <= |s| && Occurs(s, t, start + pos)
    ensures forall k :: start <= k < start + pos ==> !Occurs(s, t, k)
  {
    OccursInSuffix(s, t, start, pos);
    forall k | start <= k < start + pos ensures !Occurs(s, t, k) {
      FoundBefore(s, t, start, pos, k);
    }
  }

  lemma {:induction false} FoundBefore(s: string, t: string, start: nat, pos: nat, k: nat)
    requires start <= k < start + pos <= |s| && Find(s[start..], t) == Some(pos)
    ensures !Occurs(s, t, k)
  {
    assert !Occurs(s[start..], t, k - start);
    OccursInSuffix(s, t, start, k - start);
  }

  lemma {:induction false} FoundNone(s: string, t: string, start: nat)
    requires start <= |s| && Find(s[start..], t).None?
    ensures forall k :: start <= k ==> !Occurs(s, t, k)
  {
    forall k | start <= k ensures !Occurs(s, t, k) {
      OccursInSuffix(s, t, start, k - start);
    }
  }

  // ---------------------------------------------------------------------------
  // The occurrences a search reports
  // ---------------------------------------------------------------------------

  /** An occurrence of `t` at `j` that the search accepts. */
  predicate Hit(s: string, t: string, wholeWord: bool, j: int) {
    Occurs(s, t, j) && (!wholeWord || IsWordBoundary(s, j, j + |t|))
  }

  /** The least accepted occurrence at or after `from` (see NextHitIsLeast). */
  function NextHit(s: string, t: string, wholeWord: bool, from: nat): (r: Option<nat>)
    requires |t| > 0 && from <= |s|
    ensures r.Some? ==> from <= r.value && Hit(s, t, wholeWord, r.value)
    decreases |s| - from
  {
    if from + |t| > |s| then None
    else if Hit(s, t, wholeWord, from) then Some(from)
    else NextHit(s, t, wholeWord, from + 1)
  }

  /** Nothing before the next accepted occurrence is accepted, and nothing
      at all when there is none. */
  lemma {:induction false} NextHitIsLeast(s: string, t: string, wholeWord: bool, from: nat)
    requires |t| > 0 && from <= |s|
    ensures NextHit(s, t, wholeWord, from).Some? ==>
              forall k :: from <= k < NextHit(s, t, wholeWord, from).value ==> !Hit(s, t, wholeWord, k)
    ensures NextHit(s, t, wholeWord, from).None? ==> forall k :: from <= k ==> !Hit(s, t, wholeWord, k)
    decreases |s| - from
  {
    if from + |t| <= |s| && !Hit(s, t, wholeWord, from) {
      NextHitIsLeast(s, t, wholeWord, from + 1);
    }
  }

  /** The offsets a search reports on one text, by their definition: the
      least accepted occurrence, then the least one after its end, and so
      on. */
  function Hits(s: string, t: string, wholeWord: bool, from: nat): seq<nat>
    requires |t| > 0 && from <= |s|
    decreases |s| - from
  {
    match NextHit(s, t, wholeWord, from)
    case None => []
    case Some(j) => [j] + Hits(s, t, wholeWord, j + |t|)
  }

  /** Skipping offsets that hold no accepted occurrence does not change the
      next one. */
  lemma {:induction false} NextHitSkip(s: string, t: string, wholeWord: bool, from: nat, upTo: nat)
    requires |t| > 0 && from <= upTo <= |s|
    requires forall k :: from <= k < upTo ==> !Hit(s, t, wholeWord, k)
    ensures NextHit(s, t, wholeWord, from) == NextHit(s, t, wholeWord, upTo)
    decreases upTo - from
  {
    if from < upTo && from + |t| <= |s| {
      assert !Hit(s, t, wholeWord, from);
      NextHitSkip(s, t, wholeWord, from + 1, upTo);
    }
  }

  predicate AllHits(hs: seq<nat>, s: string, t: string, wholeWord: bool) {
    forall k :: 0 <= k < |hs| ==> Hit(s, t, wholeWord, hs[k])
  }

  /** Every reported offset is an accepted occurrence. */
  lemma {:induction false} HitsAreHits(s: string, t: string, wholeWord: bool, from: nat)
    requires |t| > 0 && from <= |s|
    ensures AllHits(Hits(s, t, wholeWord, from), s, t, wholeWord)
    decreases |s| - from
  {
    match NextHit(s, t, wholeWord, from) {
      case None =>
      case Some(j) =>
        HitsAreHits(s, t, wholeWord, j + |t|);
        AllHitsCons(j, Hits(s, t, wholeWord, j + |t|), s, t, wholeWord);
    }
  }

  lemma {:induction false} AllHitsCons(j: nat, rest: seq<nat>, s: string, t: string, wholeWord: bool)
    requires Hit(s, t, wholeWord, j) && AllHits(rest, s, t, wholeWord)
    ensures AllHits([j] + rest, s, t, wholeWord)
  {
    forall k | 0 < k < |[j] + rest| ensures Hit(s, t, wholeWord, ([j] + rest)[k]) {
      assert ([j] + rest)[k] == rest[k - 1];
    }
  }

  lemma {:induction false} HitsFit(s: string, t: string, wholeWord: bool, from: nat)
    requires |t| > 0 && from <= |s|
    ensures forall k :: 0 <= k < |Hits(s, t, wholeWord, from)| ==> Hits(s, t, wholeWord, from)[k] + |t| <= |s|
  {
    HitsAreHits(s, t, wholeWord, from);
  }

  // ---------------------------------------------------------------------------
  // The search loops
  // ---------------------------------------------------------------------------

  /** The offsets the search loops visit and accept, step by step: a
      candidate that fails the whole-word test moves the search on by one
      offset, an accepted one moves it past its end. */
  function Scan(s: string, t: string, wholeWord: bool, start: nat): seq<nat>
    requires |t| > 0 && start <= |s|
    decreases |s| - start
  {
    match FindFrom(s, t, start)
    case None => []
    case Some(j) =>
      if wholeWord && !IsWordBoundary(s, j, j + |t|) then Scan(s, t, wholeWord, j + 1)
      else [j] + Scan(s, t, wholeWord, j + |t|)
  }

  lemma {:induction false} ScanNone(s: string, t: string, wholeWord: bool, start: nat)
    requires |t| > 0 && start <= |s| && FindFrom(s, t, start).None?
    ensures Scan(s, t, wholeWord, start) == []
  {
  }

  lemma {:induction false} ScanMiss(s: string, t: string, wholeWord: bool, start: nat, j: nat)
    requires |t| > 0 && start <= |s| && FindFrom(s, t, start) == Some(j)
    requires wholeWord && !IsWordBoundary(s, j, j + |t|)
    ensures j + 1 <= |s| && Scan(s, t, wholeWord, start) == Scan(s, t, wholeWord, j + 1)
  {
  }

  lemma {:induction false} ScanAccept(s: string, t: string, wholeWord: bool, start: nat, j: nat)
    requires |t| > 0 && start <= |s| && FindFrom(s, t, start) == Some(j)
    requires !wholeWord || IsWordBoundary(s, j, j + |t|)
    ensures j + |t| <= |s| && Scan(s, t, wholeWord, start) == [j] + Scan(s, t, wholeWord, j + |t|)
  {
  }

  /** The loops report exactly the accepted occurrences, each the least one
      after the previous match. */
  lemma {:induction false} ScanIsHits(s: string, t: string, wholeWord: bool, start: nat)
    requires |t| > 0 && start <= |s|
    ensures Scan(s, t, wholeWord, start) == Hits(s, t, wholeWord, start)
    decreases |s| - start
  {
    var f := FindFrom(s, t, start);
    if f.None? {
      ScanNone(s, t, wholeWord, start);
      HitsNone(s, t, wholeWord, start);
    } else if wholeWord && !IsWordBoundary(s, f.value, f.value + |t|) {
      ScanIsHits(s, t, wholeWord, f.value + 1);
      ScanIsHitsMiss(s, t, wholeWord, start, f.value);
    } else {
      ScanIsHits(s, t, wholeWord, f.value + |t|);
      ScanIsHitsAccept(s, t, wholeWord, start, f.value);
    }
  }

  lemma {:induction false} ScanIsHitsMiss(s: string, t: string, wholeWord: bool, start: nat, j: nat)
    requires |t| > 0 && start <= |s| && FindFrom(s, t, start) == Some(j)
    requires wholeWord && !IsWordBoundary(s, j, j + |t|)
    requires j + 1 <= |s| && Scan(s, t, wholeWord, j + 1) == Hits(s, t, wholeWord, j + 1)
    ensures Scan(s, t, wholeWord, start) == Hits(s, t, wholeWord, start)
  {
    ScanMiss(s, t, wholeWord, start, j);
    HitsMiss(s, t, wholeWord, start, j);
    Chain(Scan(s, t, wholeWord, start), Scan(s, t, wholeWord, j + 1),
          Hits(s, t, wholeWord, j + 1), Hits(s, t, wholeWord, start));
  }

  lemma {:induction false} ScanIsHitsAccept(s: string, t: string, wholeWord: bool, start: nat, j: nat)
    requires |t| > 0 && start <= |s| && FindFrom(s, t, start) == Some(j)
    requires !wholeWord || IsWordBoundary(s, j, j + |t|)
    requires j + |t| <= |s| && Scan(s, t, wholeWord, j + |t|) == Hits(s, t, wholeWord, j + |t|)
    ensures Scan(s, t, wholeWord, start) == Hits(s, t, wholeWord, start)
  {
    ScanAccept(s, t, wholeWord, start, j);
    HitsAccept(s, t, wholeWord, start, j);
    ConsChain(Scan(s, t, wholeWord, start), j, Scan(s, t, wholeWord, j + |t|),
              Hits(s, t, wholeWord, j + |t|), Hits(s, t, wholeWord, start));
  }

  lemma {:induction false} HitsNone(s: string, t: string, wholeWord: bool, start: nat)
    requires |t| > 0 && start <= |s| && FindFrom(s, t, start).None?
    ensures Hits(s, t, wholeWord, start) == []
  {
    FindFromFirst(s, t, start);
    NextHitSkip(s, t, wholeWord, start, |s|);
  }

  lemma {:induction false} HitsMiss(s: string, t: string, wholeWord: bool, start: nat, j: nat)
    requires |t| > 0 && start <= |s| && FindFrom(s, t, start) == Some(j)
    requires wholeWord && !IsWordBoundary(s, j, j + |t|)
    ensures j + 1 <= |s| && Hits(s, t, wholeWord, start) == Hits(s, t, wholeWord, j + 1)
  {
    FindFromFirst(s, t, start);
    forall k | start <= k < j + 1 ensures !Hit(s, t, wholeWord, k) {
      if k < j {
        assert !Occurs(s, t, k);
      }
    }
    NextHitSkip(s, t, wholeWord, start, j + 1);
  }

  lemma {:induction false} HitsAccept(s: string, t: string, wholeWord: bool, start: nat, j: nat)
    requires |t| > 0 && start <= |s| && FindFrom(s, t, start) == Some(j)
    requires !wholeWord || IsWordBoundary(s, j, j + |t|)
    ensures j + |t| <= |s| && Hits(s, t, wholeWord, start) == [j] + Hits(s, t, wholeWord, j + |t|)
  {
    FindFromFirst(s, t, start);
    forall k | start <= k < j ensures !Hit(s, t, wholeWord, k) {
      assert !Occurs(s, t, k);
    }
    NextHitSkip(s, t, wholeWord, start, j);
    assert Hit(s, t, wholeWord, j);
    assert NextHit(s, t, wholeWord, j) == Some(j);
  }

  /** Equality chains, stated once so the solver need not search for them. */
  lemma {:induction false} Chain<T>(a: seq<T>, b: seq<T>, c: seq<T>, d: seq<T>)
    requires a == b && b == c && c == d
    ensures a == d
  {
  }

  lemma {:induction false} ConsChain<T>(a: seq<T>, x: T, b: seq<T>, c: seq<T>, d: seq<T>)
    requires a == [x] + b && b == c && d == [x] + c
    ensures a == d
  {
  }

  // ---------------------------------------------------------------------------
  // Spans
  // ---------------------------------------------------------------------------

  /** Spans of length `len` in order and apart, inside text of length `n`,
      none before `from`. */
  predicate Spans(js: seq<nat>, len: nat, from: nat, n: nat)
    decreases |js|
  {
    from <= n
    && (|js| > 0 ==> from <= js[0] && js[0] + len <= n && Spans(js[1..], len, js[0] + len, n))
  }

  lemma {:induction false} SpansCons(j: nat, rest: seq<nat>, len: nat, from: nat, n: nat)
    requires from <= j && j + len <= n && Spans(rest, len, j + len, n)
    ensures Spans([j] + rest, len, from, n)
  {
    assert ([j] + rest)[1..] == rest;
  }

  /** Every span lies inside the text, none before `from`, each ending
      before the next begins. */
  lemma {:induction false} SpansInside(js: seq<nat>, len: nat, from: nat, n: nat)
    requires Spans(js, len, from, n)
    ensures forall k :: 0 <= k < |js| ==> from <= js[k] && js[k] + len <= n
    ensures forall k :: 0 <= k < |js| - 1 ==> js[k] + len <= js[k + 1]
    decreases |js|
  {
    if |js| > 0 {
      SpansInside(js[1..], len, js[0] + len, n);
      forall k | 0 < k < |js| ensures from <= js[k] && js[k] + len <= n {
        assert js[k] == js[1..][k - 1];
      }
      forall k | 0 < k < |js| - 1 ensures js[k] + len <= js[k + 1] {
        assert js[k] == js[1..][k - 1] && js[k + 1] == js[1..][k];
      }
    }
  }

  /** The offsets the loops accept are spans of the pattern's length. */
  lemma {:induction false} ScanSpans(s: string, t: string, wholeWord: bool, start: nat, lastEnd: nat)
    requires |t| > 0 && lastEnd <= start <= |s|
    ensures Spans(Scan(s, t, wholeWord, start), |t|, lastEnd, |s|)
    decreases |s| - start
  {
    var f := FindFrom(s, t, start);
    if f.None? {
      ScanNone(s, t, wholeWord, start);
    } else if wholeWord && !IsWordBoundary(s, f.value, f.value + |t|) {
      ScanMiss(s, t, wholeWord, start, f.value);
      ScanSpans(s, t, wholeWord, f.value + 1, lastEnd);
    } else {
      ScanAccept(s, t, wholeWord, start, f.value);
      ScanSpans(s, t, wholeWord, f.value + |t|, f.value + |t|);
      SpansCons(f.value, Scan(s, t, wholeWord, f.value + |t|), |t|, lastEnd, |s|);
    }
  }

  /** The reported offsets are accepted occurrences at or after `from`, in
      increasing order and without overlap. */
  lemma {:induction false} HitsOrdered(s: string, t: string, wholeWord: bool, from: nat)
    requires |t| > 0 && from <= |s|
    ensures Spans(Hits(s, t, wholeWord, from), |t|, from, |s|)
    ensures AllHits(Hits(s, t, wholeWord, from), s, t, wholeWord)
    ensures forall k :: 0 <= k < |Hits(s, t, wholeWord, from)| ==> from <= Hits(s, t, wholeWord, from)[k]
    ensures forall k :: 0 <= k < |Hits(s, t, wholeWord, from)| - 1 ==>
              Hits(s, t, wholeWord, from)[k] + |t| <= Hits(s, t, wholeWord, from)[k + 1]
  {
    ScanSpans(s, t, wholeWord, from, from);
    ScanIsHits(s, t, wholeWord, from);
    SpansInside(Hits(s, t, wholeWord, from), |t|, from, |s|);
    HitsAreHits(s, t, wholeWord, from);
  }

  // ---------------------------------------------------------------------------
  // find_literal_matches
  // ---------------------------------------------------------------------------

  /** A match reported on line `n`: its span is the pattern's length and its
      text is the original line's text there. */
  predicate WellFormed(m: MatchInfo, line: string, pattern: string, n: nat) {
    m.lineNumber == n && m.lineContent == line
    && m.columnEnd == m.columnStart + |pattern| <= |line|
    && m.matchedText == line[m.columnStart..m.columnEnd]
  }

  predicate AllWellFormed(r: seq<MatchInfo>, line: string, pattern: string, n: nat) {
    forall k :: 0 <= k < |r| ==> WellFormed(r[k], line, pattern, n)
  }

  /** The match reported at offset `a` of line `n`. */
  function MatchAt(line: string, pattern: string, n: nat, a: nat): MatchInfo
    requires a + |pattern| <= |line|
  {
    Preview.MatchInfo(n, a, a + |pattern|, line[a..a + |pattern|], line)
  }

  /** The matches `find_literal_matches` reports on line `n`: one per
      accepted occurrence of the compared pattern in the compared line. */
  function LineResult(line: string, pattern: string, opts: Options, n: nat): (r: seq<MatchInfo>)
    requires |pattern| > 0
    ensures Preview.Starts(r) == Hits(SearchText(opts, line), SearchText(opts, pattern), opts.wholeWord, 0)
    ensures AllWellFormed(r, line, pattern, n)
  {
    var hs := Hits(SearchText(opts, line), SearchText(opts, pattern), opts.wholeWord, 0);
    HitsFit(SearchText(opts, line), SearchText(opts, pattern), opts.wholeWord, 0);
    seq(|hs|, k requires 0 <= k < |hs| => MatchAt(line, pattern, n, hs[k]))
  }

  /** The inner loop of `find_literal_matches` on one line. */
  method LiteralLineMatches(line: string, pattern: string, opts: Options, n: nat) returns (r: seq<MatchInfo>)
    requires |pattern| > 0
    ensures r == LineResult(line, pattern, opts, n)
  {
    var sl := SearchText(opts, line);
    var sp := SearchText(opts, pattern);
    var js := ScanOffsets(sl, sp, opts.wholeWord);
    ScanIsHits(sl, sp, opts.wholeWord, 0);
    HitsFit(sl, sp, opts.wholeWord, 0);
    r := seq(|js|, k requires 0 <= k < |js| => MatchAt(line, pattern, n, js[k]));
  }

  /** The search loop of `find_literal_matches` and of the case-insensitive
      branch of `replace_literal`: find from `start`, move on by one offset
      past a candidate that fails the whole-word test, and resume after the
      end of an accepted one. */
  method ScanOffsets(s: string, t: string, wholeWord: bool) returns (js: seq<nat>)
    requires |t| > 0
    ensures js == Scan(s, t, wholeWord, 0)
  {
    ghost var all := Scan(s, t, wholeWord, 0);
    js := [];
    var start: nat := 0;
    while true
      invariant start <= |s|
      invariant js + Scan(s, t, wholeWord, start) == all
      decreases |s| - start
    {
      var f := FindAfter(s, t, start);
      if f.None? {
        ScanNone(s, t, wholeWord, start);
        break;
      }
      var j := f.value;
      if wholeWord && !IsWordBoundary(s, j, j + |t|) {
        ScanMiss(s, t, wholeWord, start, j);
        start := j + 1;
      } else {
        ScanAccept(s, t, wholeWord, start, j);
        SeqAssoc(js, [j], Scan(s, t, wholeWord, j + |t|));
        js := js + [j];
        start := j + |t|;
      }
    }
    EmptyRight(js, Scan(s, t, wholeWord, start), all);
  }

  /** `search_line[start..].find(search_pattern)`, as an offset of the whole
      line. */
  method FindAfter(s: string, t: string, start: nat) returns (r: Option<nat>)
    requires start <= |s|
    ensures r == FindFrom(s, t, start)
  {
    var f := Find(s[start..], t);
    FindIsFindFrom(s, t, start);
    if f.None? {
      r := None;
    } else {
      r := Some(start + f.value);
    }
  }

  lemma {:induction false} EmptyRight<T>(a: seq<T>, b: seq<T>, c: seq<T>)
    requires a + b == c && b == []
    ensures a == c
  {
  }

  /** Well-formed matches are fixed by where they start. */
  lemma {:induction false} WellFormedDetermined(r1: seq<MatchInfo>, r2: seq<MatchInfo>, line: string, pattern: string, n: nat)
    requires Preview.Starts(r1) == Preview.Starts(r2)
    requires AllWellFormed(r1, line, pattern, n) && AllWellFormed(r2, line, pattern, n)
    ensures r1 == r2
  {
    forall k | 0 <= k < |r1| ensures r1[k] == r2[k] {
      assert Preview.Starts(r1)[k] == Preview.Starts(r2)[k];
    }
  }

  /** With the default options the loop's offsets are those of the analysis
      engine's per-line search. */
  lemma {:induction false} ScanIsLineMatches(line: string, pattern: string, start: nat, n: nat)
    requires |pattern| > 0 && start <= |line|
    ensures Preview.Starts(Preview.LineMatches(line, pattern, start, n)) == Scan(line, pattern, false, start)
    decreases |line| - start
  {
    var f := FindFrom(line, pattern, start);
    if f.None? {
      LineMatchesAtNone(line, pattern, start, n);
      ScanNone(line, pattern, false, start);
    } else {
      var pos := f.value - start;
      var next := start + pos + |pattern|;
      FindFromIsFind(line, pattern, start, pos);
      ScanIsLineMatches(line, pattern, next, n);
      ScanAccept(line, pattern, false, start, start + pos);
      LineMatchesStep(line, pattern, start, n, pos);
    }
  }

  lemma {:induction false} LineMatchesAtNone(line: string, pattern: string, start: nat, n: nat)
    requires |pattern| > 0 && start <= |line| && FindFrom(line, pattern, start).None?
    ensures Preview.Starts(Preview.LineMatches(line, pattern, start, n)) == []
  {
    FindIsFindFrom(line, pattern, start);
    LineMatchesNone(line, pattern, start, n);
  }

  lemma {:induction false} FindFromIsFind(s: string, t: string, start: nat, pos: nat)
    requires start <= |s| && FindFrom(s, t, start) == Some(start + pos)
    ensures Find(s[start..], t) == Some(pos)
  {
    FindIsFindFrom(s, t, start);
  }

  lemma {:induction false} LineMatchesNone(line: string, pattern: string, start: nat, n: nat)
    requires |pattern| > 0 && start <= |line| && Find(line[start..], pattern).None?
    ensures Preview.Starts(Preview.LineMatches(line, pattern, start, n)) == []
  {
  }

  /** One step of the engine's per-line search, by start offsets. */
  lemma {:induction false} LineMatchesStarts(line: string, pattern: string, start: nat, n: nat, pos: nat)
    requires |pattern| > 0 && start <= |line| && Find(line[start..], pattern) == Some(pos)
    ensures start + pos + |pattern| <= |line|
    ensures Preview.Starts(Preview.LineMatches(line, pattern, start, n))
            == [start + pos] + Preview.Starts(Preview.LineMatches(line, pattern, start + pos + |pattern|, n))
  {
    var next := start + pos + |pattern|;
    Preview.FindInSuffix(line, pattern, start, pos);
    var m := Preview.MatchInfo(n, start + pos, next, pattern, line);
    var a, rest := Preview.LineMatches(line, pattern, start, n), Preview.LineMatches(line, pattern, next, n);
    Preview.LineMatchesUnfold(line, pattern, start, n, pos);
    Preview.StartsOfCons(a, m, rest);
  }

  lemma {:induction false} LineMatchesStep(line: string, pattern: string, start: nat, n: nat, pos: nat)
    requires |pattern| > 0 && start + pos + |pattern| <= |line| && Find(line[start..], pattern) == Some(pos)
    requires Scan(line, pattern, false, start) == [start + pos] + Scan(line, pattern, false, start + pos + |pattern|)
    requires Preview.Starts(Preview.LineMatches(line, pattern, start + pos + |pattern|, n))
             == Scan(line, pattern, false, start + pos + |pattern|)
    ensures Preview.Starts(Preview.LineMatches(line, pattern, start, n)) == Scan(line, pattern, false, start)
  {
    var next := start + pos + |pattern|;
    var a, b := Preview.Starts(Preview.LineMatches(line, pattern, start, n)), Preview.Starts(Preview.LineMatches(line, pattern, next, n));
    var x, y := Scan(line, pattern, false, next), Scan(line, pattern, false, start);
    LineMatchesStarts(line, pattern, start, n, pos);
    ConsChain(a, start + pos, b, x, y);
  }

  /** With the default options a line's matches are the analysis engine's. */
  lemma {:induction false} DefaultsAgree(line: string, pattern: string, n: nat)
    requires |pattern| > 0
    ensures LineResult(line, pattern, Defaults, n) == Preview.LineMatches(line, pattern, 0, n)
  {
    var lm := Preview.LineMatches(line, pattern, 0, n);
    ScanIsLineMatches(line, pattern, 0, n);
    ScanIsHits(line, pattern, false, 0);
    HitsOrdered(line, pattern, false, 0);
    forall k | 0 <= k < |lm| ensures WellFormed(lm[k], line, pattern, n) {
      assert Preview.Starts(lm)[k] == lm[k].columnStart;
      assert Occurs(line, pattern, lm[k].columnStart);
      OccursIsSlice(line, pattern, lm[k].columnStart);
    }
    WellFormedDetermined(LineResult(line, pattern, Defaults, n), lm, line, pattern, n);
  }

  /** The matches of a sequence of lines, numbered from `first`. */
  function LinesResult(ls: seq<string>, pattern: string, opts: Options, first: nat): seq<MatchInfo>
    requires |pattern| > 0
    decreases |ls|
  {
    if |ls| == 0 then [] else LineResult(ls[0], pattern, opts, first) + LinesResult(ls[1..], pattern, opts, first + 1)
  }

  /** Every match names one of the lines numbered from `first` and is well
      formed on it. */
  predicate OnLines(r: seq<MatchInfo>, ls: seq<string>, pattern: string, first: nat) {
    forall k :: 0 <= k < |r| ==>
      first <= r[k].lineNumber < first + |ls|
      && WellFormed(r[k], ls[r[k].lineNumber - first], pattern, r[k].lineNumber)
  }

  /** Every match names a line of the text and is well formed on it. */
  lemma {:induction false} LinesResultWellFormed(ls: seq<string>, pattern: string, opts: Options, first: nat)
    requires |pattern| > 0
    ensures OnLines(LinesResult(ls, pattern, opts, first), ls, pattern, first)
    decreases |ls|
  {
    if |ls| > 0 {
      LinesResultWellFormed(ls[1..], pattern, opts, first + 1);
      OnLinesCons(LineResult(ls[0], pattern, opts, first), LinesResult(ls[1..], pattern, opts, first + 1),
                  ls, pattern, first);
    }
  }

  lemma {:induction false} OnLinesCons(h: seq<MatchInfo>, rest: seq<MatchInfo>, ls: seq<string>, pattern: string, first: nat)
    requires |ls| > 0 && AllWellFormed(h, ls[0], pattern, first)
    requires OnLines(rest, ls[1..], pattern, first + 1)
    ensures OnLines(h + rest, ls, pattern, first)
  {
    var r: seq<MatchInfo> := h + rest;
    forall k | 0 <= k < |r|
      ensures first <= r[k].lineNumber < first + |ls|
      ensures WellFormed(r[k], ls[r[k].lineNumber - first], pattern, r[k].lineNumber)
    {
      if k < |h| {
        assert r[k] == h[k];
      } else {
        var m := rest[k - |h|];
        assert r[k] == m;
        assert first + 1 <= m.lineNumber < first + 1 + |ls[1..]|;
        assert ls[1..][m.lineNumber - (first + 1)] == ls[m.lineNumber - first];
      }
    }
  }

  /** With the default options the lines' matches are the analysis engine's. */
  lemma {:induction false} LinesResultDefaults(ls: seq<string>, pattern: string, first: nat)
    requires |pattern| > 0
    ensures LinesResult(ls, pattern, Defaults, first) == Preview.AllLineMatches(ls, pattern, first)
    decreases |ls|
  {
    if |ls| > 0 {
      DefaultsAgree(ls[0], pattern, first);
      LinesResultDefaults(ls[1..], pattern, first + 1);
    }
  }

  /** `find_literal_matches` over the lines of a text. An empty pattern is
      found again at the same offset forever, so on text with at least one
      line the search does not return (None). */
  method FindLiteralMatches(content: string, pattern: string, opts: Options) returns (r: Option<seq<MatchInfo>>)
    ensures r.None? <==> pattern == "" && Lines(content) != []
    ensures r.Some? && pattern != "" ==> r.value == LinesResult(Lines(content), pattern, opts, 1)
  {
    var ls := Lines(content);
    if pattern == "" {
      if ls == [] {
        return Some([]);
      }
      return None;
    }
    var acc := LinesLoop(ls, pattern, opts);
    r := Some(acc);
  }

  /** The loop over the lines, numbered from one. */
  method LinesLoop(ls: seq<string>, pattern: string, opts: Options) returns (acc: seq<MatchInfo>)
    requires |pattern| > 0
    ensures acc == LinesResult(ls, pattern, opts, 1)
  {
    ghost var total := LinesResult(ls, pattern, opts, 1);
    acc := [];
    var i := 0;
    assert ls[0..] == ls;
    while i < |ls|
      invariant 0 <= i <= |ls|
      invariant acc + LinesResult(ls[i..], pattern, opts, i + 1) == total
    {
      var ms := LiteralLineMatches(ls[i], pattern, opts, i + 1);
      LinesStep(ls, i, acc, pattern, opts, total);
      acc := acc + ms;
      i := i + 1;
    }
    EmptyRight(acc, LinesResult(ls[i..], pattern, opts, i + 1), total);
  }

  lemma {:induction false} LinesStep(ls: seq<string>, i: nat, acc: seq<MatchInfo>, pattern: string, opts: Options, total: seq<MatchInfo>)
    requires |pattern| > 0 && i < |ls|
    requires acc + LinesResult(ls[i..], pattern, opts, i + 1) == total
    ensures (acc + LineResult(ls[i], pattern, opts, i + 1)) + LinesResult(ls[i + 1..], pattern, opts, i + 2) == total
  {
    assert ls[i..][1..] == ls[i + 1..];
    SeqAssoc(acc, LineResult(ls[i], pattern, opts, i + 1), LinesResult(ls[i + 1..], pattern, opts, i + 2));
  }

  /** What `find_literal_matches` reports: well-formed matches on lines of
      the text, and with the default options the analysis engine's
      `find_matches`. */
  lemma {:induction false} FindLiteralMatchesSpec(content: string, pattern: string, opts: Options)
    requires |pattern| > 0
    ensures OnLines(LinesResult(Lines(content), pattern, opts, 1), Lines(content), pattern, 1)
    ensures opts == Defaults ==> Some(LinesResult(Lines(content), pattern, opts, 1)) == Preview.FindMatches(content, pattern)
  {
    LinesResultWellFormed(Lines(content), pattern, opts, 1);
    LinesResultDefaults(Lines(content), pattern, 1);
  }

  // ---------------------------------------------------------------------------
  // replace_literal
  // ---------------------------------------------------------------------------

  /** The reference for the case-insensitive branch: the text between the
      spans is copied verbatim and each span of length `len` becomes `rep`.
      An offset that is not a span after the previous one is passed over; the
      offsets it is applied to are always spans (ScanSpans, HitsOrdered). */
  function Splice(s: string, js: seq<nat>, len: nat, rep: string, from: nat): string
    decreases |js|
  {
    if |js| == 0 then (if from <= |s| then s[from..] else [])
    else if from <= js[0] && js[0] + len <= |s| then s[from..js[0]] + rep + Splice(s, js[1..], len, rep, js[0] + len)
    else Splice(s, js[1..], len, rep, from)
  }

  lemma {:induction false} SpliceNil(s: string, len: nat, rep: string, from: nat)
    requires from <= |s|
    ensures Splice(s, [], len, rep, from) == s[from..]
  {
  }

  /** Each replaced span changes the length by the difference of the
      replacement's and the pattern's lengths. */
  lemma {:induction false} SpliceLength(s: string, js: seq<nat>, len: nat, rep: string, from: nat)
    requires Spans(js, len, from, |s|)
    ensures |Splice(s, js, len, rep, from)| == |s| - from + |js| * (|rep| - len)
    decreases |js|
  {
    if |js| > 0 {
      SpliceLength(s, js[1..], len, rep, js[0] + len);
    }
  }

  lemma {:induction false} SpliceCons(s: string, j: nat, rest: seq<nat>, len: nat, rep: string, from: nat)
    requires from <= j && j + len <= |s|
    ensures Splice(s, [j] + rest, len, rep, from) == s[from..j] + rep + Splice(s, rest, len, rep, j + len)
  {
    assert ([j] + rest)[1..] == rest;
  }

  /** The reference for the case-insensitive branch: the text with every
      accepted occurrence of the compared pattern replaced. */
  function SpliceAtHits(content: string, sl: string, sp: string, rep: string, wholeWord: bool): string
    requires |sl| == |content| && |sp| > 0
  {
    Splice(content, Hits(sl, sp, wholeWord, 0), |sp|, rep, 0)
  }

  /** The loop of the case-insensitive branch. An empty pattern is found
      again at the same offset forever (or, with `whole_word`, the search
      runs off the end of the text), so it is an error. */
  method ReplaceInsensitive(content: string, pattern: string, replacement: string, wholeWord: bool)
    returns (r: Result<(string, nat)>)
    ensures r.Err? <==> pattern == ""
    ensures r.Ok? ==>
              r.value == (SpliceAtHits(content, Lower(content), Lower(pattern), replacement, wholeWord),
                          |Hits(Lower(content), Lower(pattern), wholeWord, 0)|)
  {
    if pattern == "" {
      return Err("empty pattern: the search does not advance");
    }
    var lc := Lower(content);
    var lp := Lower(pattern);
    var js := ScanOffsets(lc, lp, wholeWord);
    ScanIsHits(lc, lp, wholeWord, 0);
    var text := Splice(content, js, |lp|, replacement, 0);
    r := Ok((text, |js|));
  }

  /** Without whole-word matching, splicing the loop's spans of text that
      needs no lowering is `str::replace`. */
  lemma {:induction false} ScanSpliceIsReplace(s: string, t: string, rep: string, from: nat)
    requires |t| > 0 && from <= |s|
    ensures Splice(s, Scan(s, t, false, from), |t|, rep, from) == ReplaceNonEmpty(s[from..], t, rep)
  {
    SpliceIsReplaceFrom(s, t, rep, from);
    ReplaceFromIsReplace(s, t, rep, from);
  }

  /** `str::replace` on the text from `from`, with every search reported as
      an offset into the whole text. */
  function ReplaceFrom(s: string, t: string, rep: string, from: nat): string
    requires |t| > 0 && from <= |s|
    decreases |s| - from
  {
    match FindFrom(s, t, from)
    case None => s[from..]
    case Some(j) => s[from..j] + rep + ReplaceFrom(s, t, rep, j + |t|)
  }

  lemma {:induction false} SpliceIsReplaceFrom(s: string, t: string, rep: string, from: nat)
    requires |t| > 0 && from <= |s|
    ensures Splice(s, Scan(s, t, false, from), |t|, rep, from) == ReplaceFrom(s, t, rep, from)
    decreases |s| - from
  {
    match FindFrom(s, t, from) {
      case None =>
        ScanNone(s, t, false, from);
        SpliceNil(s, |t|, rep, from);
      case Some(j) =>
        var next := j + |t|;
        SpliceIsReplaceFrom(s, t, rep, next);
        ScanAccept(s, t, false, from, j);
        ReplaceFromAccept(s, t, rep, from, j);
        SpliceChain(s, Scan(s, t, false, from), Scan(s, t, false, next), j, |t|, rep, from,
                    ReplaceFrom(s, t, rep, next), ReplaceFrom(s, t, rep, from));
    }
  }

  lemma {:induction false} ReplaceFromAccept(s: string, t: string, rep: string, from: nat, j: nat)
    requires |t| > 0 && from <= |s| && FindFrom(s, t, from) == Some(j)
    ensures from <= j && j + |t| <= |s|
    ensures ReplaceFrom(s, t, rep, from) == s[from..j] + rep + ReplaceFrom(s, t, rep, j + |t|)
  {
  }

  /** Splicing offsets `[j] + tail` from `from` puts `rep` in place of the
      span at `j`, after the text before it. */
  lemma {:induction false} SpliceChain(s: string, js: seq<nat>, tail: seq<nat>, j: nat, len: nat, rep: string,
                                       from: nat, rest: string, whole: string)
    requires js == [j] + tail && from <= j && j + len <= |s|
    requires Splice(s, tail, len, rep, j + len) == rest
    requires whole == s[from..j] + rep + rest
    ensures Splice(s, js, len, rep, from) == whole
  {
    SpliceCons(s, j, tail, len, rep, from);
  }

  lemma {:induction false} ReplaceFromIsReplace(s: string, t: string, rep: string, from: nat)
    requires |t| > 0 && from <= |s|
    ensures ReplaceFrom(s, t, rep, from) == ReplaceNonEmpty(s[from..], t, rep)
    decreases |s| - from
  {
    match FindFrom(s, t, from) {
      case None =>
        FindIsFindFrom(s, t, from);
        ReplaceNone(s[from..], t, rep);
      case Some(j) =>
        var pos := j - from;
        FindFromIsFind(s, t, from, pos);
        ReplaceUnfold(s, t, rep, from, pos);
        ReplaceFromIsReplace(s, t, rep, j + |t|);
    }
  }

  lemma {:induction false} ReplaceNone(u: string, t: string, rep: string)
    requires |t| > 0 && Find(u, t).None?
    ensures ReplaceNonEmpty(u, t, rep) == u
  {
  }

  /** `str::replace` on the rest of a text from `from`, one occurrence at a
      time. */
  lemma {:induction false} ReplaceUnfold(s: string, t: string, rep: string, from: nat, i: nat)
    requires |t| > 0 && from <= |s| && Find(s[from..], t) == Some(i)
    ensures from + i + |t| <= |s|
    ensures ReplaceNonEmpty(s[from..], t, rep) == s[from..from + i] + rep + ReplaceNonEmpty(s[from + i + |t|..], t, rep)
  {
    var u := s[from..];
    ReplaceStep(u, t, rep, i);
    SuffixSlices(s, from, i, |t|);
    Joined(ReplaceNonEmpty(u, t, rep), u[..i], rep, ReplaceNonEmpty(u[i + |t|..], t, rep),
           s[from..from + i] + rep + ReplaceNonEmpty(s[from + i + |t|..], t, rep),
           ReplaceNonEmpty(s[from + i + |t|..], t, rep));
  }

  lemma {:induction false} ReplaceStep(u: string, t: string, rep: string, i: nat)
    requires |t| > 0 && Find(u, t) == Some(i)
    ensures i + |t| <= |u|
    ensures ReplaceNonEmpty(u, t, rep) == u[..i] + rep + ReplaceNonEmpty(u[i + |t|..], t, rep)
  {
    assert Occurs(u, t, i);
  }

  lemma {:induction false} SuffixSlices(s: string, from: nat, i: nat, len: nat)
    requires from + i + len <= |s|
    ensures s[from..][..i] == s[from..from + i]
    ensures s[from..][i + len..] == s[from + i + len..]
  {
  }

  /** `a` and `d` both put `r` after `x` and before equal tails. */
  lemma {:induction false} Joined(a: string, x: string, r: string, b: string, d: string, e: string)
    requires a == x + r + b && d == x + r + e && b == e
    ensures a == d
  {
  }

  /** Without whole-word matching the loop finds as many occurrences as
      `str::matches` counts. */
  lemma {:induction false} ScanCountsPositions(s: string, t: string)
    requires |t| > 0
    ensures |Scan(s, t, false, 0)| == |Positions(s, t)|
  {
    ScanIsLineMatches(s, t, 0, 0);
    Preview.LineMatchesArePositions(s, t, 0, 0);
    assert s[0..] == s;
  }

  /** `replace_literal`. Case-sensitive, it is `split(pattern)` joined by the
      replacement, counting pieces minus one, whatever `whole_word` says;
      otherwise each accepted case-insensitive span is replaced. */
  method ReplaceLiteral(content: string, pattern: string, replacement: string, opts: Options)
    returns (r: Result<(string, nat)>)
    ensures opts.caseSensitive ==> r == Ok((Strs.Replace(content, pattern, replacement), Count(content, pattern)))
    ensures opts.caseSensitive && replacement == pattern ==> r.value.0 == content
    ensures !opts.caseSensitive ==> (r.Err? <==> pattern == "")
    ensures !opts.caseSensitive && r.Ok? ==>
              r.value == (SpliceAtHits(content, Lower(content), Lower(pattern), replacement, opts.wholeWord),
                          |Hits(Lower(content), Lower(pattern), opts.wholeWord, 0)|)
  {
    if opts.caseSensitive {
      var parts := Split(content, pattern);
      SplitCount(content, pattern);
      SplitThenJoinIsReplace(content, pattern, replacement);
      SplitThenJoinIsIdentity(content, pattern);
      r := Ok((JoinWith(parts, replacement), |parts| - 1));
    } else {
      r := ReplaceInsensitive(content, pattern, replacement, opts.wholeWord);
    }
  }

  /** On text and a pattern without capitals, and without whole-word
      matching, the two branches of `replace_literal` agree. */
  lemma {:induction false} BranchesAgreeOnLowercase(content: string, pattern: string, replacement: string)
    requires |pattern| > 0
    requires forall i :: 0 <= i < |content| ==> !('A' <= content[i] <= 'Z')
    requires forall i :: 0 <= i < |pattern| ==> !('A' <= pattern[i] <= 'Z')
    ensures SpliceAtHits(content, Lower(content), Lower(pattern), replacement, false)
            == Strs.Replace(content, pattern, replacement)
    ensures |Hits(Lower(content), Lower(pattern), false, 0)| == Count(content, pattern)
  {
    LowerUnchanged(content);
    LowerUnchanged(pattern);
    ScanSpliceIsReplace(content, pattern, replacement, 0);
    ScanCountsPositions(content, pattern);
    ScanIsHits(content, pattern, false, 0);
    assert content[0..] == content;
  }

  /** `replace_in_file`: a missing file is an error; otherwise the file is
      rewritten with `replace_literal`'s text, for either kind of options,
      only when something was replaced, and the count is returned. */
  method ReplaceInFile(files: map<string, string>, file: string, pattern: string, replacement: string, opts: Options)
    returns (files': map<string, string>, r: Result<nat>)
    ensures r.Err? ==> files' == files
    ensures file !in files ==> r.Err?
    ensures r.Ok? && r.value == 0 ==> files' == files
    ensures r.Ok? && r.value > 0 ==> file in files && file in files' && files'.Keys == files.Keys
    ensures r.Ok? && opts.caseSensitive ==>
              r.value == Count(files[file], pattern)
              && files' == (if r.value > 0 then files[file := Strs.Replace(files[file], pattern, replacement)] else files)
    ensures !opts.caseSensitive && file in files ==> (r.Err? <==> pattern == "")
    ensures r.Ok? && !opts.caseSensitive ==>
              r.value == |Hits(Lower(files[file]), Lower(pattern), opts.wholeWord, 0)|
              && files' == (if r.value > 0
                            then files[file := SpliceAtHits(files[file], Lower(files[file]), Lower(pattern), replacement, opts.wholeWord)]
                            else files)
  {
    if file !in files {
      return files, Err("No such file or directory");
    }
    var out := ReplaceLiteral(files[file], pattern, replacement, opts);
    if out.Err? {
      return files, Err(out.msg);
    }
    var (text, count) := out.value;
    if count > 0 {
      files' := files[file := text];
    } else {
      files' := files;
    }
    r := Ok(count);
  }

  // ---------------------------------------------------------------------------
  // byte_pos_to_line_col
  // ---------------------------------------------------------------------------

  function NewlinesIn(s: string): nat
    decreases |s|
  {
    if |s| == 0 then 0 else NewlinesIn(s[..|s| - 1]) + (if s[|s| - 1] == '\n' then 1 else 0)
  }

  /** Where the last line of `s` begins. */
  function LastLineStart(s: string): (r: nat)
    ensures r <= |s|
  {
    match RFindChar(s, '\n')
    case None => 0
    case Some(i) => i + 1
  }

  /** `byte_pos_to_line_col`: walks the text up to `pos` (or its end),
      counting line breaks; the column restarts at 1 after each one. */
  method ByteToLineCol(content: string, pos: nat) returns (line: nat, col: nat)
    ensures var p := content[..if pos < |content| then pos else |content|];
            line == 1 + NewlinesIn(p) && col == 1 + |p| - LastLineStart(p)
  {
    line := 1;
    col := 1;
    var i := 0;
    while i < |content| && i < pos
      invariant i <= |content| && i <= pos
      invariant line == 1 + NewlinesIn(content[..i]) && col == 1 + i - LastLineStart(content[..i])
    {
      var p := content[..i + 1];
      assert p[..i] == content[..i];
      if content[i] == '\n' {
        line := line + 1;
        col := 1;
      } else {
        col := col + 1;
      }
      i := i + 1;
    }
    assert i == (if pos < |content| then pos else |content|);
  }

  /** In the text `a + "\n" + b`, offset `c` of `b` (up to the next line
      break) is on the line after `a`'s last one, at column `c + 1`. */
  lemma {:induction false} LineColAfterBreak(a: string, b: string, c: nat)
    requires c <= |b| && '\n' !in b[..c]
    ensures var p := (a + "\n" + b)[..|a| + 1 + c];
            NewlinesIn(p) == NewlinesIn(a) + 1 && 1 + |p| - LastLineStart(p) == c + 1
    decreases c
  {
    var p := (a + "\n" + b)[..|a| + 1 + c];
    if c == 0 {
      assert p == a + "\n";
      assert p[..|p| - 1] == a;
    } else {
      var q := (a + "\n" + b)[..|a| + c];
      assert b[..c - 1] == b[..c][..c - 1];
      LineColAfterBreak(a, b, c - 1);
      assert p[..|p| - 1] == q;
      assert p[|p| - 1] == b[c - 1] == b[..c][c - 1];
    }
  }
}
