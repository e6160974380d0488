/** The pure parts of the refactoring tool's command line
    (`nekorefactor/src/main.rs`): the insert-position parser and the range
    check of the move-lines preview. Every error here is a configuration or
    refactoring error carrying its message. */
module RefactorCli {
  import opened Wrappers
  import opened Strs
  import opened RefactorPreview

  // ---------------------------------------------------------------------------
  // Insert positions
  // ---------------------------------------------------------------------------

  /** `parse_insert_position`: the argument is lowercased first; "start" and
      "begin" name the start, "end" the end; a `u32` names a line; "after:N"
      and "before:N" name a line with a direction. A bad number after the
      colon is reported with the lowercased text, any other input with the
      text as given. */
  function ParseInsertPosition(pos: string): (r: Result<InsertPosition>)
    ensures r.Err? && (StartsWith(Lower(pos), "after:") || StartsWith(Lower(pos), "before:")) ==>
              r.msg == "Invalid line number: " + Lower(pos)
    ensures r.Err? && !StartsWith(Lower(pos), "after:") && !StartsWith(Lower(pos), "before:") ==>
              r.msg == "Invalid position: " + pos
    ensures r.Ok? && !r.value.Start? && !r.value.End? ==> r.value.n <= U32Max
  {
    var s := Lower(pos);
    if s == "start" || s == "begin" then Ok(Start)
    else if s == "end" then Ok(End)
    else
      match ParseU32(s)
      case Some(n) => Ok(Line(n))
      case None =>
        if StartsWith(s, "after:") then
          match ParseU32(s[6..])
          case Some(n) => Ok(AfterLine(n))
          case None => Err("Invalid line number: " + s)
        else if StartsWith(s, "before:") then
          match ParseU32(s[7..])
          case Some(n) => Ok(BeforeLine(n))
          case None => Err("Invalid line number: " + s)
        else Err("Invalid position: " + pos)
  }

  /** The spellings of a position, read on the lowercased argument: a
      keyword, a bare number, or a direction prefix followed by a number. */
  ghost predicate Denotes(pos: string, p: InsertPosition) {
    var s := Lower(pos);
    match p
    case Start => s == "start" || s == "begin"
    case End => s == "end"
    case Line(n) => ParseU32(s) == Some(n)
    case AfterLine(n) => exists d :: s == "after:" + d && ParseU32(d) == Some(n)
    case BeforeLine(n) => exists d :: s == "before:" + d && ParseU32(d) == Some(n)
  }

  /** Text starting with a letter is not a number. */
  lemma {:induction false} LetterNotNumber(s: string)
    requires |s| > 0 && 'a' <= s[0] <= 'z'
    ensures ParseU32(s).None?
  {
  }

  /** Whatever the parser accepts is a spelling of what it returns. */
  lemma {:induction false} ParseSound(pos: string)
    requires ParseInsertPosition(pos).Ok?
    ensures Denotes(pos, ParseInsertPosition(pos).value)
  {
    var s := Lower(pos);
    if s == "start" || s == "begin" {
      assert ParseInsertPosition(pos) == Ok(Start);
    } else if s == "end" {
      assert ParseInsertPosition(pos) == Ok(End);
    } else if ParseU32(s).Some? {
      assert ParseInsertPosition(pos) == Ok(Line(ParseU32(s).value));
    } else if StartsWith(s, "after:") {
      var n := ParseU32(s[6..]).value;
      assert ParseInsertPosition(pos) == Ok(AfterLine(n));
      AfterDenotes(pos, n);
    } else {
      var n := ParseU32(s[7..]).value;
      assert ParseInsertPosition(pos) == Ok(BeforeLine(n));
      BeforeDenotes(pos, n);
    }
  }

  lemma {:induction false} AfterDenotes(pos: string, n: nat)
    requires StartsWith(Lower(pos), "after:") && ParseU32(Lower(pos)[6..]) == Some(n)
    ensures Denotes(pos, AfterLine(n))
  {
    var s := Lower(pos);
    assert s == "after:" + s[6..];
  }

  lemma {:induction false} BeforeDenotes(pos: string, n: nat)
    requires StartsWith(Lower(pos), "before:") && ParseU32(Lower(pos)[7..]) == Some(n)
    ensures Denotes(pos, BeforeLine(n))
  {
    var s := Lower(pos);
    assert s == "before:" + s[7..];
  }

  /** Every spelling of a position parses to it. */
  lemma {:induction false} ParseComplete(pos: string, p: InsertPosition)
    requires Denotes(pos, p)
    ensures ParseInsertPosition(pos) == Ok(p)
  {
    var s := Lower(pos);
    match p {
      case Start =>
      case End =>
      case Line(n) => CompleteLine(pos, n);
      case AfterLine(n) =>
        var d :| s == "after:" + d && ParseU32(d) == Some(n);
        CompleteAfter(pos, d, n);
      case BeforeLine(n) =>
        var d :| s == "before:" + d && ParseU32(d) == Some(n);
        CompleteBefore(pos, d, n);
    }
  }

  lemma {:induction false} CompleteLine(pos: string, n: nat)
    requires ParseU32(Lower(pos)) == Some(n)
    ensures ParseInsertPosition(pos) == Ok(Line(n))
  {
    var s := Lower(pos);
    assert s != "start" && s != "begin" && s != "end" by {
      assert |s| > 0 && (IsAsciiDigit(s[0]) || s[0] == '+');
    }
  }

  lemma {:induction false} CompleteAfter(pos: string, d: string, n: nat)
    requires Lower(pos) == "after:" + d && ParseU32(d) == Some(n)
    ensures ParseInsertPosition(pos) == Ok(AfterLine(n))
  {
    var s := Lower(pos);
    assert s[..6] == "after:";
    assert s[6..] == d;
    LetterNotNumber(s);
  }

  lemma {:induction false} CompleteBefore(pos: string, d: string, n: nat)
    requires Lower(pos) == "before:" + d && ParseU32(d) == Some(n)
    ensures ParseInsertPosition(pos) == Ok(BeforeLine(n))
  {
    var s := Lower(pos);
    assert s[..7] == "before:";
    assert s[7..] == d;
    assert !StartsWith(s, "after:") by { assert s[1] != "after:"[1]; }
    LetterNotNumber(s);
  }

  /** The parser looks at the lowercased text only: two arguments that agree
      up to ASCII case parse to the same position, or both fail. */
  lemma {:induction false} ParseIgnoresCase(a: string, b: string)
    requires Lower(a) == Lower(b)
    ensures ParseInsertPosition(a).Ok? <==> ParseInsertPosition(b).Ok?
    ensures ParseInsertPosition(a).Ok? ==> ParseInsertPosition(a).value == ParseInsertPosition(b).value
  {
  }

  /** The canonical spelling of a position. */
  function Render(p: InsertPosition): string {
    match p
    case Start => "start"
    case End => "end"
    case Line(n) => NatToString(n)
    case AfterLine(n) => "after:" + NatToString(n)
    case BeforeLine(n) => "before:" + NatToString(n)
  }

  /** Writing a position and parsing it back gives it back, also with the
      keyword or prefix in capitals. */
  lemma {:induction false} ParseRendered(p: InsertPosition, up: string)
    requires !p.Start? && !p.End? ==> p.n <= U32Max
    requires Lower(up) == Render(p)
    ensures ParseInsertPosition(up) == Ok(p)
  {
    match p {
      case Start =>
      case End =>
      case Line(n) =>
        ParsePrinted(n);
      case AfterLine(n) =>
        ParsePrinted(n);
      case BeforeLine(n) =>
        ParsePrinted(n);
    }
    ParseComplete(up, p);
  }

  // ---------------------------------------------------------------------------
  // The move-lines preview
  // ---------------------------------------------------------------------------

  /** The lines the `move-lines-preview` command captures: `start_line - 1`
      underflows on 0 (a panic, an error here), and a range reaching past
      the end of the file is refused before any preview is stored. */
  function MoveLinesSelection(ls: seq<string>, startLine: nat, lineCount: nat): (r: Result<seq<string>>)
    ensures r.Err? <==> startLine == 0 || startLine - 1 + lineCount > |ls|
    ensures r.Ok? ==> |r.value| == lineCount
  {
    if startLine == 0 then Err("attempt to subtract with overflow")
    else if startLine - 1 + lineCount > |ls| then Err("Line range out of bounds")
    else Ok(ls[startLine - 1..startLine - 1 + lineCount])
  }

  /** The captured block, put back between the lines before it and the lines
      the later move keeps, is the file again. */
  lemma {:induction false} SelectionReassembles(ls: seq<string>, startLine: nat, lineCount: nat)
    requires MoveLinesSelection(ls, startLine, lineCount).Ok?
    ensures 1 <= startLine && startLine - 1 + lineCount <= |ls|
    ensures var kept := CutSpec(ls, startLine, lineCount);
            kept[..startLine - 1] + MoveLinesSelection(ls, startLine, lineCount).value + kept[startLine - 1..] == ls
  {
    var s, e := startLine - 1, startLine - 1 + lineCount;
    var kept := CutSpec(ls, startLine, lineCount);
    assert kept[..s] == ls[..s];
    assert kept[s..] == ls[e..];
    assert ls[..s] + ls[s..e] + ls[e..] == ls;
  }
}
