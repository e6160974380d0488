/** File text as a sequence of lines, with the conventions every text edit
    of the refactoring tools follows: text is read with Rust's `str::lines()`
    and written back as the lines joined by "\n". */
module TextLines {
  import opened Strs

  /** Drops one trailing carriage return. */
  function StripCR(l: string): string {
    if |l| > 0 && l[|l| - 1] == '\r' then l[..|l| - 1] else l
  }

  /** `str::lines()`: pieces between "\n"; a piece ended by "\n" loses one
      trailing "\r"; the unterminated last piece is kept unless it is empty. */
  function Lines(s: string): (r: seq<string>)
    ensures forall k :: 0 <= k < |r| ==> '\n' !in r[k]
  {
    PiecesFree(s, '\n');
    LinesOfPieces(Split(s, "\n"))
  }

  /** Each piece of `ps` with its trailing carriage return dropped. */
  function StripAll(ps: seq<string>): (r: seq<string>)
    ensures |r| == |ps|
    ensures forall k :: 0 <= k < |ps| ==> r[k] == StripCR(ps[k])
  {
    seq(|ps|, k requires 0 <= k < |ps| => StripCR(ps[k]))
  }

  /** The lines of text whose split on "\n" is `ps`. */
  function LinesOfPieces(ps: seq<string>): (r: seq<string>)
    requires |ps| >= 1
    requires forall k :: 0 <= k < |ps| ==> '\n' !in ps[k]
    ensures forall k :: 0 <= k < |r| ==> '\n' !in r[k]
  {
    var last := ps[|ps| - 1];
    StripAll(ps[..|ps| - 1]) + (if last == "" then [] else [last])
  }

  /** `lines.join("\n")`. */
  function Join(ls: seq<string>): string {
    JoinWith(ls, "\n")
  }

  /** A line that survives a write and a re-read unchanged. */
  predicate LineOk(l: string) {
    '\n' !in l && !EndsWith(l, "\r")
  }

  /** A line sequence that `Lines(Join(_))` gives back unchanged: no line
      holds a newline or ends with a carriage return, and the last line is not
      empty (an empty last line would be read back as a trailing newline). */
  predicate Stable(ls: seq<string>) {
    (forall k :: 0 <= k < |ls| ==> LineOk(ls[k])) && (|ls| == 0 || ls[|ls| - 1] != "")
  }

  /** Writing stable lines and reading them back is the identity. */
  lemma {:induction false} LinesOfJoin(ls: seq<string>)
    requires Stable(ls)
    ensures Lines(Join(ls)) == ls
  {
    if |ls| == 0 {
      assert Split("", "\n") == [""];
    } else {
      SplitNoSeparator(ls, '\n');
      assert Split(Join(ls), "\n") == ls;
      StableUnchanged(ls);
    }
  }

  lemma {:induction false} StableUnchanged(ls: seq<string>)
    requires Stable(ls) && |ls| >= 1
    ensures LinesOfPieces(ls) == ls
  {
    var front := ls[..|ls| - 1];
    forall k | 0 <= k < |front| ensures StripCR(front[k]) == front[k] {
      assert LineOk(ls[k]);
      if |front[k]| > 0 && front[k][|front[k]| - 1] == '\r' {
        assert EndsWith(front[k], "\r");
      }
    }
    assert StripAll(front) == front;
    assert ls == front + [ls[|ls| - 1]];
  }

  /** Lines(s) is empty exactly for the empty text. */
  lemma {:induction false} LinesEmptyIff(s: string)
    ensures Lines(s) == [] <==> s == ""
  {
    if s != "" && Lines(s) == [] {
      SplitThenJoinIsIdentity(s, "\n");
    }
  }

  /** A line of text with no line breaks is read as that one line. */
  lemma {:induction false} LinesOfOneLine(l: string)
    requires '\n' !in l && l != ""
    ensures Lines(l) == [l]
  {
    ContainsChar(l, '\n');
    assert Split(l, "\n") == [l];
  }
}
