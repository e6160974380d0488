/** The preview-and-confirm editing of the analysis engine
    (`src/core/preview.rs`). The file system is a map from path text to file
    contents; preview ids and creation times are parameters. */
module Preview {
  import opened Wrappers
  import opened Strs
  import opened Seqs
  import opened TextLines

  /** The file system the operations read and write. */
  type Files = map<string, string>

  datatype MatchInfo = MatchInfo(
    lineNumber: nat,
    columnStart: nat,
    columnEnd: nat,
    matchedText: string,
    lineContent: string)

  datatype Operation =
    | Replace(file: string, pattern: string, replacement: string, matches: seq<MatchInfo>)
    | Insert(file: string, position: nat, content: string)
    | MoveLines(source: string, start: nat, count: nat, destination: string, position: nat, lines: seq<string>)
    | MoveClass(sessionId: string, symbolId: string, target: string, classContent: string)

  datatype Entry = Entry(id: string, operation: Operation, createdAt: int, confirmed: bool)

  // ---------------------------------------------------------------------------
  // find_matches
  // ---------------------------------------------------------------------------

  /** The inner loop of `find_matches` on one line, from byte `start` on:
      each search resumes right after the previous match. */
  function LineMatches(line: string, pattern: string, start: nat, lineNumber: nat): (r: seq<MatchInfo>)
    requires |pattern| > 0 && start <= |line|
    ensures forall k :: 0 <= k < |r| ==>
              r[k].lineNumber == lineNumber && r[k].columnEnd == r[k].columnStart + |pattern|
              && r[k].lineContent == line && r[k].matchedText == pattern
    decreases |line| - start
  {
    match Find(line[start..], pattern)
    case None => []
    case Some(pos) =>
      [MatchInfo(lineNumber, start + pos, start + pos + |pattern|, pattern, line)]
      + LineMatches(line, pattern, start + pos + |pattern|, lineNumber)
  }

  function Starts(ms: seq<MatchInfo>): seq<nat> {
    seq(|ms|, k requires 0 <= k < |ms| => ms[k].columnStart)
  }

  /** The matches of a line start exactly at the non-overlapping
      occurrences of the pattern, left to right, and each spans the pattern. */
  lemma {:induction false} LineMatchesArePositions(line: string, pattern: string, start: nat, n: nat)
    requires |pattern| > 0 && start <= |line|
    ensures Starts(LineMatches(line, pattern, start, n)) == Shift(Positions(line[start..], pattern), start)
    decreases |line| - start
  {
    var s := line[start..];
    match Find(s, pattern) {
      case None =>
        NoMatchesNoPositions(line, pattern, start, n);
      case Some(pos) =>
        FindInSuffix(line, pattern, start, pos);
        LineMatchesArePositions(line, pattern, start + pos + |pattern|, n);
        MatchStep(line, pattern, start, n, pos);
    }
  }

  /** The step of `LineMatchesArePositions`, from the two unfoldings and the
      claim for the rest of the line. */
  lemma {:induction false} MatchStep(line: string, pattern: string, start: nat, n: nat, pos: nat)
    requires |pattern| > 0 && start <= |line| && Find(line[start..], pattern) == Some(pos)
    requires start + pos + |pattern| <= |line|
    requires Starts(LineMatches(line, pattern, start + pos + |pattern|, n))
             == Shift(Positions(line[start + pos + |pattern|..], pattern), start + pos + |pattern|)
    ensures Starts(LineMatches(line, pattern, start, n)) == Shift(Positions(line[start..], pattern), start)
  {
    var next := start + pos + |pattern|;
    var a, rest := LineMatches(line, pattern, start, n), LineMatches(line, pattern, next, n);
    var p, ps := Positions(line[start..], pattern), Positions(line[next..], pattern);
    LineMatchesUnfold(line, pattern, start, n, pos);
    PositionsUnfoldAt(line, pattern, start, pos);
    MatchChain(a, MatchInfo(n, start + pos, next, pattern, line), rest, p, ps, pos, |pattern|, start);
  }

  lemma {:induction false} FindInSuffix(line: string, t: string, start: nat, pos: nat)
    requires start <= |line| && Find(line[start..], t) == Some(pos)
    ensures start + pos + |t| <= |line|
  {
  }

  lemma {:induction false} NoMatchesNoPositions(line: string, pattern: string, start: nat, n: nat)
    requires |pattern| > 0 && start <= |line| && Find(line[start..], pattern).None?
    ensures LineMatches(line, pattern, start, n) == [] && Positions(line[start..], pattern) == []
  {
  }

  /** The positions of a suffix of `line`, unfolded once and restated on
      `line` itself. */
  lemma {:induction false} PositionsUnfoldAt(line: string, t: string, start: nat, pos: nat)
    requires |t| > 0 && start <= |line| && Find(line[start..], t) == Some(pos)
    ensures start + pos + |t| <= |line|
    ensures Positions(line[start..], t) == [pos] + Shift(Positions(line[start + pos + |t|..], t), pos + |t|)
  {
    PositionsUnfold(line[start..], t, pos);
    SuffixOfSuffix(line, start, pos + |t|);
  }

  /** The step of `LineMatchesArePositions` on values alone. */
  lemma {:induction false} MatchChain(a: seq<MatchInfo>, m: MatchInfo, rest: seq<MatchInfo>, p: seq<nat>,
                                      ps: seq<nat>, pos: nat, len: nat, start: nat)
    requires a == [m] + rest && m.columnStart == start + pos
    requires Starts(rest) == Shift(ps, start + pos + len)
    requires p == [pos] + Shift(ps, pos + len)
    ensures Starts(a) == Shift(p, start)
  {
    StartsCons(m, rest);
    ShiftStep(pos, len, start, ps, Starts(rest));
  }

  lemma {:induction false} SuffixOfSuffix(s: string, a: nat, b: nat)
    requires a + b <= |s|
    ensures s[a..][b..] == s[a + b..]
  {
  }

  lemma {:induction false} StartsCons(m: MatchInfo, rest: seq<MatchInfo>)
    ensures Starts([m] + rest) == [m.columnStart] + Starts(rest)
  {
  }

  lemma {:induction false} StartsOfCons(a: seq<MatchInfo>, m: MatchInfo, rest: seq<MatchInfo>)
    requires a == [m] + rest
    ensures Starts(a) == [m.columnStart] + Starts(rest)
  {
    StartsCons(m, rest);
  }

  lemma {:induction false} LineMatchesUnfold(line: string, pattern: string, start: nat, n: nat, pos: nat)
    requires |pattern| > 0 && start <= |line| && Find(line[start..], pattern) == Some(pos)
    ensures LineMatches(line, pattern, start, n)
            == [MatchInfo(n, start + pos, start + pos + |pattern|, pattern, line)]
               + LineMatches(line, pattern, start + pos + |pattern|, n)
  {
  }

  lemma {:induction false} PositionsUnfold(s: string, t: string, pos: nat)
    requires |t| > 0 && Find(s, t) == Some(pos)
    ensures Positions(s, t) == [pos] + Shift(Positions(s[pos + |t|..], t), pos + |t|)
  {
  }

  lemma {:induction false} ShiftStep(pos: nat, len: nat, start: nat, ps: seq<nat>, rest: seq<nat>)
    requires rest == Shift(ps, start + pos + len)
    ensures [start + pos] + rest == Shift([pos] + Shift(ps, pos + len), start)
  {
  }

  /** The matches of one line in source order. */
  lemma {:induction false} LineMatchSpec(line: string, pattern: string, n: nat)
    requires |pattern| > 0
    ensures |LineMatches(line, pattern, 0, n)| == Count(line, pattern)
    ensures forall k :: 0 <= k < |LineMatches(line, pattern, 0, n)| ==>
              Occurs(line, pattern, LineMatches(line, pattern, 0, n)[k].columnStart)
    ensures forall k :: 0 <= k < |LineMatches(line, pattern, 0, n)| - 1 ==>
              LineMatches(line, pattern, 0, n)[k].columnEnd <= LineMatches(line, pattern, 0, n)[k + 1].columnStart
  {
    var lm := LineMatches(line, pattern, 0, n);
    var ps := Positions(line, pattern);
    LineMatchesArePositions(line, pattern, 0, n);
    assert line[0..] == line;
    PositionsSpec(line, pattern);
    assert Starts(lm) == Shift(ps, 0);
    forall k | 0 <= k < |lm| ensures lm[k].columnStart == ps[k] {
      assert Starts(lm)[k] == lm[k].columnStart;
    }
  }

  function AllLineMatches(ls: seq<string>, pattern: string, first: nat): seq<MatchInfo>
    requires |pattern| > 0
    decreases |ls|
  {
    if |ls| == 0 then [] else LineMatches(ls[0], pattern, 0, first) + AllLineMatches(ls[1..], pattern, first + 1)
  }

  /** `PreviewManager::find_matches`. With an empty pattern the search never
      advances, so on text with at least one line it does not return (None). */
  function FindMatches(content: string, pattern: string): (r: Option<seq<MatchInfo>>)
    ensures r.None? <==> pattern == "" && Lines(content) != []
  {
    if pattern == "" then (if Lines(content) == [] then Some([]) else None)
    else Some(AllLineMatches(Lines(content), pattern, 1))
  }

  /** One match per non-overlapping occurrence, line by line. */
  lemma {:induction false} AllLineMatchesCount(ls: seq<string>, pattern: string, first: nat)
    requires |pattern| > 0
    ensures |AllLineMatches(ls, pattern, first)| == Sum(LineCounts(ls, pattern))
    decreases |ls|
  {
    if |ls| > 0 {
      LineMatchSpec(ls[0], pattern, first);
      AllLineMatchesCount(ls[1..], pattern, first + 1);
    }
  }

  function LineCounts(ls: seq<string>, pattern: string): (r: seq<nat>)
    ensures |r| == |ls|
    decreases |ls|
  {
    if |ls| == 0 then [] else [Count(ls[0], pattern)] + LineCounts(ls[1..], pattern)
  }

  // ---------------------------------------------------------------------------
  // Occurrence counts across line breaks
  // ---------------------------------------------------------------------------

  /** The first occurrence in `s` is at `i`. */
  lemma {:induction false} FindAt(s: string, t: string, i: nat)
    requires |t| > 0 && Occurs(s, t, i)
    requires forall j :: 0 <= j < i ==> !Occurs(s, t, j)
    ensures Find(s, t) == Some(i)
  {
    var f := Find(s, t);
    assert f.Some?;
    assert !(f.value < i);
    assert !(i < f.value);
  }

  /** When nothing occurs before `k`, `s` and `s[k..]` hold the same number
      of occurrences. */
  lemma {:induction false} CountSkip(s: string, t: string, k: nat)
    requires |t| > 0 && k <= |s|
    requires forall j :: 0 <= j < k ==> !Occurs(s, t, j)
    ensures |Positions(s, t)| == |Positions(s[k..], t)|
  {
    forall j ensures Occurs(s[k..], t, j) <==> Occurs(s, t, j + k) {
      if j >= 0 { OccursInSuffix(s, t, k, j); }
    }
    match Find(s, t) {
      case None =>
        assert forall j :: !Occurs(s[k..], t, j) by {
          forall j ensures !Occurs(s[k..], t, j) {
            if j >= 0 { OccursInSuffix(s, t, k, j); }
          }
        }
        assert Find(s[k..], t).None?;
      case Some(i) =>
        assert i >= k;
        forall j | 0 <= j < i - k ensures !Occurs(s[k..], t, j) {
          OccursInSuffix(s, t, k, j);
        }
        FindAt(s[k..], t, i - k);
        assert s[k..][i - k + |t|..] == s[i + |t|..];
    }
  }

  /** A separator that cannot be part of the pattern splits the count. */
  lemma {:induction false} CountAcross(a: string, c: char, b: string, t: string)
    requires |t| > 0 && c !in t
    ensures |Positions(a + [c] + b, t)| == |Positions(a, t)| + |Positions(b, t)|
    decreases |a|
  {
    match Find(a, t) {
      case Some(i) =>
        CountAcrossFirst(a, c, b, t, i);
        CountAcross(a[i + |t|..], c, b, t);
      case None =>
        CountAcrossNone(a, c, b, t);
    }
  }

  /** The first occurrence in `a` is the first one across the separator. */
  lemma {:induction false} CountAcrossFirst(a: string, c: char, b: string, t: string, i: nat)
    requires |t| > 0 && Find(a, t) == Some(i)
    ensures |Positions(a + [c] + b, t)| == 1 + |Positions(a[i + |t|..] + [c] + b, t)|
    ensures |Positions(a, t)| == 1 + |Positions(a[i + |t|..], t)|
  {
    var w := a + [c] + b;
    forall j | 0 <= j < i ensures !Occurs(w, t, j) {
      assert !Occurs(a, t, j);
      OccursIsSlice(a, t, j);
      OccursIsSlice(w, t, j);
      assert w[j..j + |t|] == a[j..j + |t|];
    }
    OccursIsSlice(a, t, i);
    OccursIsSlice(w, t, i);
    assert w[i..i + |t|] == a[i..i + |t|];
    FindAt(w, t, i);
    assert w[i + |t|..] == a[i + |t|..] + [c] + b;
    PositionsUnfold(w, t, i);
    PositionsUnfold(a, t, i);
  }

  /** Without an occurrence in `a`, every occurrence lies after the
      separator. */
  lemma {:induction false} CountAcrossNone(a: string, c: char, b: string, t: string)
    requires |t| > 0 && c !in t && Find(a, t).None?
    ensures |Positions(a + [c] + b, t)| == |Positions(b, t)|
    ensures |Positions(a, t)| == 0
  {
    var w := a + [c] + b;
    forall j | 0 <= j < |a| + 1 ensures !Occurs(w, t, j) {
      OccursIsSlice(w, t, j);
      OccursIsSlice(a, t, j);
      if j + |t| <= |a| {
        assert w[j..j + |t|] == a[j..j + |t|];
        assert !Occurs(a, t, j);
      } else if j + |t| <= |w| {
        assert w[j..j + |t|][|a| - j] == c;
      }
    }
    CountSkip(w, t, |a| + 1);
    assert w[|a| + 1..] == b;
  }

  /** Text joined with a separator outside the pattern holds as many
      occurrences as its pieces together. */
  lemma {:induction false} CountOfJoin(ps: seq<string>, c: char, t: string)
    requires |t| > 0 && c !in t && |ps| >= 1
    ensures Count(JoinWith(ps, [c]), t) == Sum(LineCounts(ps, t))
    decreases |ps|
  {
    if |ps| > 1 {
      CountOfJoin(ps[1..], c, t);
      CountAcross(ps[0], c, JoinWith(ps[1..], [c]), t);
      assert JoinWith(ps, [c]) == ps[0] + [c] + JoinWith(ps[1..], [c]);
    }
  }

  /** Dropping one trailing "\r" keeps the count of a pattern without "\r". */
  lemma {:induction false} StripCRCount(p: string, t: string)
    requires |t| > 0 && '\r' !in t
    ensures Count(StripCR(p), t) == Count(p, t)
  {
    if |p| > 0 && p[|p| - 1] == '\r' {
      CountAcross(p[..|p| - 1], '\r', "", t);
      assert p[..|p| - 1] + ['\r'] + "" == p;
    }
  }

  lemma {:induction false} StripAllCounts(ps: seq<string>, t: string)
    requires |t| > 0 && '\r' !in t
    ensures Sum(LineCounts(StripAll(ps), t)) == Sum(LineCounts(ps, t))
    decreases |ps|
  {
    if |ps| > 0 {
      var sp, rest := StripAll(ps), StripAll(ps[1..]);
      StripAllCounts(ps[1..], t);
      assert sp[1..] == rest;
      StripCRCount(ps[0], t);
      LineCountsCons(sp, t);
      LineCountsCons(ps, t);
      SumCons(Count(sp[0], t), LineCounts(rest, t));
      SumCons(Count(ps[0], t), LineCounts(ps[1..], t));
    }
  }

  lemma {:induction false} LineCountsCons(ls: seq<string>, t: string)
    requires |ls| > 0
    ensures LineCounts(ls, t) == [Count(ls[0], t)] + LineCounts(ls[1..], t)
  {
  }

  /** The lines of a text hold as many occurrences as its pieces between
      "\n" do, for a pattern without "\r". */
  lemma {:induction false} LinesCountAsPieces(content: string, t: string)
    requires |t| > 0 && '\r' !in t
    ensures Sum(LineCounts(Lines(content), t)) == Sum(LineCounts(Split(content, "\n"), t))
  {
    var ps := Split(content, "\n");
    var front, last := ps[..|ps| - 1], ps[|ps| - 1];
    PiecesFree(content, '\n');
    assert Lines(content) == StripAll(front) + (if last == "" then [] else [last]);
    assert ps == front + [last];
    PiecesCount(front, last, t);
  }

  lemma {:induction false} PiecesCount(front: seq<string>, last: string, t: string)
    requires |t| > 0 && '\r' !in t
    ensures Sum(LineCounts(StripAll(front) + (if last == "" then [] else [last]), t))
         == Sum(LineCounts(front + [last], t))
  {
    var tl: seq<string> := if last == "" then [] else [last];
    var sf := StripAll(front);
    LineCountsAppend(front, [last], t);
    SumAppend(LineCounts(front, t), LineCounts([last], t));
    StripAllCounts(front, t);
    LineCountsAppend(sf, tl, t);
    SumAppend(LineCounts(sf, t), LineCounts(tl, t));
    LineCountsCons([last], t);
    SumCons(Count(last, t), []);
    if last == "" {
      assert Find("", t).None?;
      assert Count(last, t) == 0;
    }
  }

  /** For a pattern without line breaks, the preview lists exactly as many
      matches as whole-text `replace` replaces. */
  lemma {:induction false} MatchCountIsReplaceCount(content: string, pattern: string)
    requires |pattern| > 0 && '\n' !in pattern && '\r' !in pattern
    ensures |FindMatches(content, pattern).value| == Count(content, pattern)
    ensures |Split(content, pattern)| == |FindMatches(content, pattern).value| + 1
  {
    var ps := Split(content, "\n");
    SplitThenJoinIsIdentity(content, "\n");
    CountOfJoin(ps, '\n', pattern);
    LinesCountAsPieces(content, pattern);
    AllLineMatchesCount(Lines(content), pattern, 1);
    SplitCount(content, pattern);
  }

  lemma {:induction false} LineCountsAppend(a: seq<string>, b: seq<string>, t: string)
    ensures LineCounts(a + b, t) == LineCounts(a, t) + LineCounts(b, t)
    decreases |a|
  {
    if |a| > 0 {
      LineCountsAppend(a[1..], b, t);
      assert (a + b)[1..] == a[1..] + b;
      assert (a + b)[0] == a[0];
      assert LineCounts(a + b, t) == [Count(a[0], t)] + LineCounts(a[1..] + b, t);
      assert LineCounts(a, t) == [Count(a[0], t)] + LineCounts(a[1..], t);
    } else {
      assert a + b == b;
    }
  }

  // ---------------------------------------------------------------------------
  // Creating previews
  // ---------------------------------------------------------------------------

  /** A new preview entry is not confirmed. */
  function NewEntry(id: string, op: Operation, now: int): (e: Entry)
    ensures e.id == id && e.operation == op && e.createdAt == now && !e.confirmed
  {
    Entry(id, op, now, false)
  }

  /** The validation and slice of `create_movelines_preview`: line numbers
      are 1-based, the start must name an existing line, and the captured
      block is cut short at the end of the file. */
  function MoveLinesSlice(ls: seq<string>, start: nat, count: nat): (r: Result<seq<string>>)
    ensures r.Err? <==> start == 0 || start > |ls|
    ensures r.Ok? ==> |r.value| == (if start - 1 + count <= |ls| then count else |ls| - (start - 1))
    ensures r.Ok? ==> forall k :: 0 <= k < |r.value| ==> r.value[k] == ls[start - 1 + k]
  {
    if start == 0 || start > |ls| then Err("Invalid start line: " + NatToString(start))
    else
      var end := if start - 1 + count <= |ls| then start - 1 + count else |ls|;
      Ok(ls[start - 1..end])
  }

  /** `create_movelines_preview` on the source file's text. */
  function CreateMoveLinesPreview(files: Files, source: string, start: nat, count: nat,
                                  destination: string, position: nat): (r: Result<Operation>)
    ensures r.Ok? ==> source in files && r.value.MoveLines?
    ensures r.Ok? ==> MoveLinesSlice(Lines(files[source]), start, count) == Ok(r.value.lines)
    ensures source in files && 1 <= start <= |Lines(files[source])| ==> r.Ok?
  {
    if source !in files then Err("No such file")
    else
      match MoveLinesSlice(Lines(files[source]), start, count)
      case Err(e) => Err(e)
      case Ok(block) => Ok(MoveLines(source, start, count, destination, position, block))
  }

  // ---------------------------------------------------------------------------
  // Executing operations
  // ---------------------------------------------------------------------------

  /** Where an insert lands: 1-based before an existing line, and at the end
      for position 0 or any position past the last line. */
  function InsertIndex(n: nat, position: nat): (i: nat)
    ensures i <= n
    ensures position == 0 || position > n ==> i == n
    ensures 1 <= position <= n ==> i == position - 1
  {
    if position == 0 || position > n then n else position - 1
  }

  /** `Vec::insert` of one line. */
  function InsertLine(ls: seq<string>, i: nat, l: string): (r: seq<string>)
    requires i <= |ls|
    ensures |r| == |ls| + 1 && r[i] == l
    ensures r[..i] == ls[..i] && r[i + 1..] == ls[i..]
  {
    ls[..i] + [l] + ls[i..]
  }

  /** The lines after an Insert: all original lines in order, with the
      content as one more line. */
  function InsertedLines(ls: seq<string>, position: nat, content: string): (r: seq<string>)
    ensures |r| == |ls| + 1
    ensures var i := InsertIndex(|ls|, position); r[i] == content && r[..i] + r[i + 1..] == ls
  {
    var i := InsertIndex(|ls|, position);
    var r := InsertLine(ls, i, content);
    assert r[..i] + r[i + 1..] == ls[..i] + ls[i..];
    assert ls[..i] + ls[i..] == ls;
    r
  }

  /** The moved block goes in, contiguously and in order, at the insert
      index; the destination's own lines keep their order around it. */
  function InsertBlock(ls: seq<string>, position: nat, block: seq<string>): (r: seq<string>)
    ensures |r| == |ls| + |block|
    ensures var i := InsertIndex(|ls|, position);
            r[i..i + |block|] == block && r[..i] + r[i + |block|..] == ls
  {
    var i := InsertIndex(|ls|, position);
    var r := ls[..i] + block + ls[i..];
    assert r[i..i + |block|] == block;
    assert r[..i] + r[i + |block|..] == ls[..i] + ls[i..];
    assert ls[..i] + ls[i..] == ls;
    r
  }

  /** The source side of MoveLines. The start is taken from the preview and
      the file is read again; a start of 0 underflows and a start past the
      end makes the slice panic, both reported here as errors. */
  function CutBlock(ls: seq<string>, start: nat, count: nat): (r: Result<(seq<string>, seq<string>)>)
    ensures r.Err? <==> start == 0 || start - 1 > |ls|
    ensures r.Ok? ==> start - 1 + |r.value.0| <= |ls|
                      && |r.value.0| == (if start - 1 + count <= |ls| then count else |ls| - (start - 1))
                      && r.value.0 == ls[start - 1..start - 1 + |r.value.0|]
                      && r.value.1 == ls[..start - 1] + ls[start - 1 + |r.value.0|..]
    ensures r.Ok? ==> |r.value.0| + |r.value.1| == |ls|
    ensures r.Ok? && 1 <= start <= |ls| ==> MoveLinesSlice(ls, start, count) == Ok(r.value.0)
  {
    if start == 0 || start - 1 > |ls| then Err("slice index out of range")
    else
      var s := start - 1;
      var e := if s + count <= |ls| then s + count else |ls|;
      Ok((ls[s..e], ls[..s] + ls[e..]))
  }

  /** `execute_operation`: what each operation writes. A missing file to read
      is an error; MoveLines reads its destination after writing its source,
      and a missing destination reads as empty; MoveClass appends the class
      text after a line break to an existing target, or creates the target
      with it, and touches no other file. */
  function Execute(files: Files, op: Operation): (r: Result<Files>)
    ensures op.Replace? ==> (r.Ok? <==> op.file in files)
    ensures op.Replace? && r.Ok? ==> r.value == files[op.file := Strs.Replace(files[op.file], op.pattern, op.replacement)]
    ensures op.Insert? ==> (r.Ok? <==> op.file in files)
    ensures op.Insert? && r.Ok? ==> r.value == files[op.file := Join(InsertedLines(Lines(files[op.file]), op.position, op.content))]
    ensures op.MoveClass? ==> r.Ok? && r.value.Keys == files.Keys + {op.target}
    ensures op.MoveClass? ==>
              r.value[op.target] == if op.target in files then files[op.target] + "\n" + op.classContent else op.classContent
    ensures op.MoveClass? ==> forall f :: f in files && f != op.target ==> r.value[f] == files[f]
    ensures r.Ok? ==> files.Keys <= r.value.Keys
  {
    match op
    case Replace(file, pattern, replacement, _) =>
      if file !in files then Err("No such file")
      else Ok(files[file := Strs.Replace(files[file], pattern, replacement)])
    case Insert(file, position, content) =>
      if file !in files then Err("No such file")
      else Ok(files[file := Join(InsertedLines(Lines(files[file]), position, content))])
    case MoveLines(source, start, count, destination, position, _) =>
      if source !in files then Err("No such file")
      else
        (match CutBlock(Lines(files[source]), start, count)
         case Err(e) => Err(e)
         case Ok((block, remaining)) =>
           var afterSource := files[source := Join(remaining)];
           var destLines := if destination in afterSource then Lines(afterSource[destination]) else [];
           Ok(afterSource[destination := Join(InsertBlock(destLines, position, block))]))
    case MoveClass(_, _, target, classContent) =>
      Ok(files[target := if target in files then files[target] + "\n" + classContent else classContent])
  }

  /** Moving lines within one file keeps every line: once the lines that
      stay read back unchanged, the file ends up with as many lines as it had,
      the moved block sitting contiguously at the insert index. */
  lemma {:induction false} SameFileMoveKeepsLines(files: Files, f: string, start: nat, count: nat, position: nat, captured: seq<string>)
    requires f in files
    requires CutBlock(Lines(files[f]), start, count).Ok?
    requires Stable(CutBlock(Lines(files[f]), start, count).value.1)
    ensures var r := Execute(files, MoveLines(f, start, count, f, position, captured));
            var cut := CutBlock(Lines(files[f]), start, count).value;
            r.Ok? && f in r.value
            && r.value[f] == Join(InsertBlock(cut.1, position, cut.0))
            && |InsertBlock(cut.1, position, cut.0)| == |Lines(files[f])|
  {
    var cut := CutBlock(Lines(files[f]), start, count).value;
    var afterSource := files[f := Join(cut.1)];
    LinesOfJoin(cut.1);
    assert Lines(afterSource[f]) == cut.1;
  }

  /** With different files, the source loses the block and the destination
      gains it at the insert index; no other file changes. */
  lemma {:induction false} MoveAcrossFiles(files: Files, src: string, dst: string, start: nat, count: nat, position: nat, captured: seq<string>)
    requires src in files && src != dst
    requires CutBlock(Lines(files[src]), start, count).Ok?
    ensures var r := Execute(files, MoveLines(src, start, count, dst, position, captured));
            var cut := CutBlock(Lines(files[src]), start, count).value;
            var before := if dst in files then Lines(files[dst]) else [];
            r.Ok? && src in r.value && dst in r.value
            && r.value[src] == Join(cut.1)
            && r.value[dst] == Join(InsertBlock(before, position, cut.0))
            && (forall p :: p in files && p != src && p != dst ==> p in r.value && r.value[p] == files[p])
  {
    var cut := CutBlock(Lines(files[src]), start, count).value;
    var afterSource := files[src := Join(cut.1)];
    assert (dst in afterSource) == (dst in files);
    assert dst in files ==> afterSource[dst] == files[dst];
  }

  // ---------------------------------------------------------------------------
  // Confirming
  // ---------------------------------------------------------------------------

  datatype Manager = Manager(previews: map<string, Entry>, files: Files)

  /** Registering a new preview under its id. */
  function AddPreview(m: Manager, e: Entry): (r: Manager)
    ensures r.previews == m.previews[e.id := e] && r.files == m.files
  {
    m.(previews := m.previews[e.id := e])
  }

  /** `confirm_preview`: an unknown id or an already confirmed preview is an
      error; otherwise the operation is executed on the files as they are now
      (nothing checks that they still match the preview) and, only if that
      succeeds, the entry is marked confirmed. */
  function Confirm(m: Manager, id: string): (r: Result<Manager>)
    ensures id !in m.previews ==> r == Err("Preview not found: " + id)
    ensures id in m.previews && m.previews[id].confirmed ==> r == Err("Preview already confirmed: " + id)
    ensures r.Ok? <==> id in m.previews && !m.previews[id].confirmed && Execute(m.files, m.previews[id].operation).Ok?
    ensures r.Ok? ==> r.value.previews == m.previews[id := m.previews[id].(confirmed := true)]
    ensures r.Ok? ==> r.value.files == Execute(m.files, m.previews[id].operation).value
  {
    if id !in m.previews then Err("Preview not found: " + id)
    else
      var e := m.previews[id];
      if e.confirmed then Err("Preview already confirmed: " + id)
      else
        match Execute(m.files, e.operation)
        case Err(msg) => Err(msg)
        case Ok(files') => Ok(Manager(m.previews[id := e.(confirmed := true)], files'))
  }

  /** A preview executes at most once: confirming it a second time fails
      and changes nothing. */
  lemma {:induction false} ConfirmAtMostOnce(m: Manager, id: string)
    requires Confirm(m, id).Ok?
    ensures Confirm(Confirm(m, id).value, id) == Err("Preview already confirmed: " + id)
  {
  }

  /** Confirming leaves every other preview as it was. */
  lemma {:induction false} ConfirmFramesOthers(m: Manager, id: string, other: string)
    requires Confirm(m, id).Ok? && other != id && other in m.previews
    ensures other in Confirm(m, id).value.previews
    ensures Confirm(m, id).value.previews[other] == m.previews[other]
  {
  }
}
