/** The text scanners every language analyzer applies outside its parser:
    keyword counts for the cyclomatic complexity, the rated complexity
    record, the empty / comment / code line statistics, and the search for
    the first line that satisfies a test. The analyzers differ only in the
    keywords, the comment test and the line test they pass in. */
module Scanners {
  import opened Wrappers
  import opened Strs
  import opened Seqs
  import opened CoreTypes
  import opened TextLines
  import opened Langs

  // ---------------------------------------------------------------------------
  // Keyword counts
  // ---------------------------------------------------------------------------

  /** The summed `content.matches(kw).count()` over the keywords. */
  function KeywordTotal(content: string, kws: seq<string>): nat
    decreases |kws|
  {
    if |kws| == 0 then 0 else Count(content, kws[0]) + KeywordTotal(content, kws[1..])
  }

  predicate NoEmptyKeyword(kws: seq<string>) {
    forall k :: 0 <= k < |kws| ==> |kws[k]| > 0
  }

  /** No keyword counts anything exactly when none occurs in the text. */
  lemma {:induction false} KeywordTotalZeroIff(content: string, kws: seq<string>)
    requires NoEmptyKeyword(kws)
    ensures KeywordTotal(content, kws) == 0 <==> forall k :: 0 <= k < |kws| ==> !Contains(content, kws[k])
    decreases |kws|
  {
    if |kws| > 0 {
      KeywordTotalZeroIff(content, kws[1..]);
      CountZeroIff(content, kws[0]);
      assert forall k :: 1 <= k < |kws| ==> kws[k] == kws[1..][k - 1];
    }
  }

  /** One plus the keyword total plus an extra term stays at one exactly
      when no keyword occurs and the extra term is zero. */
  lemma {:induction false} OnePlusTotalIff(content: string, kws: seq<string>, extra: nat)
    requires NoEmptyKeyword(kws)
    ensures 1 + KeywordTotal(content, kws) + extra == 1 <==>
              (forall k :: 0 <= k < |kws| ==> !Contains(content, kws[k])) && extra == 0
  {
    KeywordTotalZeroIff(content, kws);
  }

  /** Each keyword's own count is part of the total. */
  lemma {:induction false} KeywordTotalCovers(content: string, kws: seq<string>, k: nat)
    requires k < |kws|
    ensures Count(content, kws[k]) <= KeywordTotal(content, kws)
    decreases |kws|
  {
    if k > 0 {
      KeywordTotalCovers(content, kws[1..], k - 1);
    }
  }

  /** The summed halved counts `matches(kw).count() / 2`, each count halved
      on its own. */
  function HalvedTotal(content: string, kws: seq<string>): nat
    decreases |kws|
  {
    if |kws| == 0 then 0 else Count(content, kws[0]) / 2 + HalvedTotal(content, kws[1..])
  }

  /** The halved counts add nothing exactly when every keyword occurs at most
      once. */
  lemma {:induction false} HalvedTotalZeroIff(content: string, kws: seq<string>)
    ensures HalvedTotal(content, kws) == 0 <==> forall k :: 0 <= k < |kws| ==> Count(content, kws[k]) <= 1
    decreases |kws|
  {
    if |kws| > 0 {
      HalvedTotalZeroIff(content, kws[1..]);
      assert forall k :: 1 <= k < |kws| ==> kws[k] == kws[1..][k - 1];
    }
  }

  /** Halving each count never gives more than halving the total. */
  lemma {:induction false} HalvedTotalBound(content: string, kws: seq<string>)
    ensures 2 * HalvedTotal(content, kws) <= KeywordTotal(content, kws)
    decreases |kws|
  {
    if |kws| > 0 {
      HalvedTotalBound(content, kws[1..]);
    }
  }

  // ---------------------------------------------------------------------------
  // The complexity record
  // ---------------------------------------------------------------------------

  /** A fresh `ComplexityInfo` given a cyclomatic count and a nesting depth,
      then rated. */
  function Rated(cyclomatic: nat, depth: nat): (r: ComplexityInfo)
    ensures r.cyclomatic == cyclomatic && r.maxNestingDepth == depth && r.cognitive == 0
    ensures r == UpdateRating(r)
    ensures r.rating == Simple <==> cyclomatic <= 10
    ensures r.rating == VeryComplex <==> cyclomatic > 50
  {
    UpdateRatingIdempotent(NewComplexity().(cyclomatic := cyclomatic, maxNestingDepth := depth));
    UpdateRating(NewComplexity().(cyclomatic := cyclomatic, maxNestingDepth := depth))
  }

  // ---------------------------------------------------------------------------
  // Line statistics
  // ---------------------------------------------------------------------------

  datatype LineKind = Empty | Comment | Code

  /** How a line counts: blank after trimming, a comment by the analyzer's
      test on the trimmed text, or code. */
  function KindOf(line: string, isComment: string -> bool): LineKind {
    var t := Trim(line);
    if t == "" then Empty else if isComment(t) then Comment else Code
  }

  function Kinds(lines: seq<string>, isComment: string -> bool): (r: seq<LineKind>)
    ensures |r| == |lines|
    ensures forall k :: 0 <= k < |lines| ==> r[k] == KindOf(lines[k], isComment)
  {
    seq(|lines|, k requires 0 <= k < |lines| => KindOf(lines[k], isComment))
  }

  function IsKind(kind: LineKind): LineKind -> bool {
    (x: LineKind) => x == kind
  }

  /** The line counts of `FileInfo`. */
  datatype LineStats = LineStats(total: nat, empty: nat, comment: nat, code: nat)

  /** The line-statistics loop of `analyze`: over `content.lines()`, each line
      counts once, as empty, comment or code. */
  method CountLines(content: string, isComment: string -> bool) returns (s: LineStats)
    ensures s.total == |Lines(content)|
    ensures s.empty == CountWhere(IsKind(Empty), Kinds(Lines(content), isComment))
    ensures s.comment == CountWhere(IsKind(Comment), Kinds(Lines(content), isComment))
    ensures s.code == CountWhere(IsKind(Code), Kinds(Lines(content), isComment))
    ensures s.empty + s.comment + s.code == s.total
  {
    var lines := Lines(content);
    s := Tally(Kinds(lines, isComment));
  }

  /** Counts each kind in one pass. */
  method Tally(ks: seq<LineKind>) returns (s: LineStats)
    ensures s.total == |ks|
    ensures s.empty == CountWhere(IsKind(Empty), ks)
    ensures s.comment == CountWhere(IsKind(Comment), ks)
    ensures s.code == CountWhere(IsKind(Code), ks)
    ensures s.empty + s.comment + s.code == s.total
  {
    s := LineStats(|ks|, 0, 0, 0);
    for i := 0 to |ks|
      invariant s.total == |ks|
      invariant s.empty == CountWhere(IsKind(Empty), ks[..i])
      invariant s.comment == CountWhere(IsKind(Comment), ks[..i])
      invariant s.code == CountWhere(IsKind(Code), ks[..i])
      invariant s.empty + s.comment + s.code == i
    {
      KindStep(ks, i);
      match ks[i]
      case Empty => s := s.(empty := s.empty + 1);
      case Comment => s := s.(comment := s.comment + 1);
      case Code => s := s.(code := s.code + 1);
    }
    assert ks[..|ks|] == ks;
  }

  /** The counts of a prefix grow by the kind of the next line only. */
  lemma {:induction false} KindStep(ks: seq<LineKind>, i: nat)
    requires i < |ks|
    ensures forall kind :: CountWhere(IsKind(kind), ks[..i + 1]) ==
              CountWhere(IsKind(kind), ks[..i]) + (if ks[i] == kind then 1 else 0)
  {
    assert ks[..i + 1] == ks[..i] + [ks[i]];
    forall kind ensures CountWhere(IsKind(kind), ks[..i + 1]) ==
                        CountWhere(IsKind(kind), ks[..i]) + (if ks[i] == kind then 1 else 0) {
      CountWhereAppend(IsKind(kind), ks[..i], [ks[i]]);
    }
  }

  lemma {:induction false} KindsCons(lines: seq<string>, isComment: string -> bool)
    requires |lines| > 0
    ensures Kinds(lines, isComment) == [KindOf(lines[0], isComment)] + Kinds(lines[1..], isComment)
  {
  }

  /** A wider comment test moves lines from code to comment and never
      changes the empty count. */
  lemma {:induction false} WiderCommentTest(lines: seq<string>, narrow: string -> bool, wide: string -> bool)
    requires forall t :: narrow(t) ==> wide(t)
    ensures CountWhere(IsKind(Empty), Kinds(lines, narrow)) == CountWhere(IsKind(Empty), Kinds(lines, wide))
    ensures CountWhere(IsKind(Comment), Kinds(lines, narrow)) <= CountWhere(IsKind(Comment), Kinds(lines, wide))
    decreases |lines|
  {
    if |lines| > 0 {
      var ka, kb := KindOf(lines[0], narrow), KindOf(lines[0], wide);
      var ra, rb := Kinds(lines[1..], narrow), Kinds(lines[1..], wide);
      WiderCommentTest(lines[1..], narrow, wide);
      KindsCons(lines, narrow);
      KindsCons(lines, wide);
      CountWhereAppend(IsKind(Empty), [ka], ra);
      CountWhereAppend(IsKind(Empty), [kb], rb);
      CountWhereAppend(IsKind(Comment), [ka], ra);
      CountWhereAppend(IsKind(Comment), [kb], rb);
    }
  }

  // ---------------------------------------------------------------------------
  // The first line that satisfies a test
  // ---------------------------------------------------------------------------

  /** The 1-based number of the first line at index `i` or later, and before
      `end`, that satisfies `p`. */
  function FirstLineFrom(lines: seq<string>, p: string -> bool, i: nat, end: nat): (r: Option<nat>)
    requires end <= |lines|
    ensures r.Some? ==> i < r.value <= end && p(lines[r.value - 1])
    ensures r.Some? ==> forall j :: i <= j < r.value - 1 ==> !p(lines[j])
    ensures r.None? <==> forall j :: i <= j < end ==> !p(lines[j])
    decreases end - i
  {
    if i >= end then None
    else if p(lines[i]) then Some(i + 1)
    else FirstLineFrom(lines, p, i + 1, end)
  }

  /** The 1-based number of the first line that satisfies `p`. */
  function FirstLine(lines: seq<string>, p: string -> bool): (r: Option<nat>)
    ensures r.Some? ==> 1 <= r.value <= |lines| && p(lines[r.value - 1])
    ensures r.Some? ==> forall j :: 0 <= j < r.value - 1 ==> !p(lines[j])
    ensures r.None? <==> forall j :: 0 <= j < |lines| ==> !p(lines[j])
  {
    FirstLineFrom(lines, p, 0, |lines|)
  }

  /** Two tests that agree on every line find the same line. */
  lemma {:induction false} FirstLineSameTest(lines: seq<string>, p: string -> bool, q: string -> bool)
    requires forall j :: 0 <= j < |lines| ==> (p(lines[j]) <==> q(lines[j]))
    ensures FirstLine(lines, p) == FirstLine(lines, q)
  {
    var a, b := FirstLine(lines, p), FirstLine(lines, q);
    if a.Some? && b.Some? {
      assert !(a.value < b.value) && !(b.value < a.value);
    }
  }

  /** A narrower test never finds an earlier line. */
  lemma {:induction false} FirstLineNarrower(lines: seq<string>, p: string -> bool, q: string -> bool)
    requires forall j :: 0 <= j < |lines| ==> (p(lines[j]) ==> q(lines[j]))
    requires FirstLine(lines, p).Some?
    ensures FirstLine(lines, q).Some? && FirstLine(lines, q).value <= FirstLine(lines, p).value
  {
  }

  /** `line.saturating_sub(1)`: the index of a 1-based line number, with line
      0 read as the first line. */
  function LineIndex(line: nat): nat {
    if line == 0 then 0 else line - 1
  }

  function Min(a: nat, b: nat): nat {
    if a <= b then a else b
  }

  function MaxNat(a: nat, b: nat): nat {
    if a >= b then a else b
  }
}
