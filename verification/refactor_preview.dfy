/** The preview manager of the refactoring tool
    (`nekorefactor/src/preview.rs`): line-sequence edits, and the
    confirm/apply life cycle of a preview. The file system is a map from
    path text to contents; ids and clock readings (seconds) are
    parameters. Arithmetic that underflows in the source panics, as in a
    debug build, and is an error here. */
module RefactorPreview {
  import opened Wrappers
  import opened Strs
  import opened TextLines

  type Files = map<string, string>

  datatype InsertPosition = Start | End | Line(n: nat) | AfterLine(n: nat) | BeforeLine(n: nat)

  datatype Operation =
    | Replace(file: string, pattern: string, replacement: string)
    | Insert(file: string, position: InsertPosition, content: string)
    | MoveLines(source: string, startLine: nat, lineCount: nat, destination: string, insertLine: nat, lines: seq<string>)
    | MoveClass(sessionId: string, symbolId: string, sourceFile: string, targetFile: string, classContent: string)
    | Delete(file: string, startLine: nat, endLine: nat, deletedLines: seq<string>)

  datatype Entry = Entry(id: string, operation: Operation, createdAt: int, confirmed: bool, applied: bool)

  // ---------------------------------------------------------------------------
  // Line edits
  // ---------------------------------------------------------------------------

  /** The reference for an insert before 0-based index `i`: the content
      goes in only when `i` names an existing line. */
  function InsertedBefore(ls: seq<string>, i: nat, content: string): seq<string> {
    if i < |ls| then ls[..i] + [content] + ls[i..] else ls
  }

  /** The index an insert position names. */
  function IndexOf(position: InsertPosition): nat
    requires !position.Start? && !position.End?
  {
    match position
    case Line(n) => n
    case AfterLine(n) => n
    case BeforeLine(n) => if n == 0 then 0 else n - 1
  }

  /** `apply_insert`'s line loop: the content is pushed just before the line
      whose index equals `at`, and never when no line has that index. */
  method InsertAt(ls: seq<string>, at: nat, content: string) returns (r: seq<string>)
    ensures r == InsertedBefore(ls, at, content)
  {
    r := [];
    var i := 0;
    while i < |ls|
      invariant 0 <= i <= |ls|
      invariant r == if at < i then ls[..at] + [content] + ls[at..i] else ls[..i]
    {
      if i == at {
        r := r + [content];
      }
      r := r + [ls[i]];
      i := i + 1;
    }
    assert ls[..|ls|] == ls;
  }

  /** `apply_insert` on the file's lines. */
  method ApplyInsertLines(ls: seq<string>, position: InsertPosition, content: string) returns (r: seq<string>)
    ensures position.Start? ==> r == [content] + ls
    ensures position.End? ==> r == ls + [content]
    ensures !position.Start? && !position.End? ==> r == InsertedBefore(ls, IndexOf(position), content)
    ensures |r| == |ls| + 1 || r == ls
  {
    match position {
      case Start => r := [content] + ls;
      case End => r := ls + [content];
      case Line(n) => r := InsertAt(ls, n, content);
      case AfterLine(n) => r := InsertAt(ls, n, content);
      case BeforeLine(n) => r := InsertAt(ls, if n == 0 then 0 else n - 1, content);
    }
  }

  /** The reference for `apply_insert`: at the start, at the end, or just
      before the line a numbered position names. */
  function Inserted(ls: seq<string>, position: InsertPosition, content: string): seq<string> {
    match position
    case Start => [content] + ls
    case End => ls + [content]
    case _ => InsertedBefore(ls, IndexOf(position), content)
  }

  /** An insert at a line index past the end loses the content: the lines
      come back unchanged. */
  lemma {:induction false} InsertPastEndDropped(ls: seq<string>, n: nat, content: string)
    requires n >= |ls|
    ensures InsertedBefore(ls, IndexOf(Line(n)), content) == ls
    ensures InsertedBefore(ls, IndexOf(AfterLine(n)), content) == ls
  {
  }

  function Clamp(x: int, n: nat): nat {
    if x < 0 then 0 else if x > n then n else x
  }

  /** The reference for `apply_delete`: the 1-based lines from `start` to
      `end` inclusive go, and nothing goes when the range is empty. */
  function DeletedRange(ls: seq<string>, start: nat, end: nat): seq<string> {
    if start > end then ls
    else ls[..Clamp(start - 1, |ls|)] + ls[Clamp(end, |ls|)..]
  }

  /** `apply_delete`'s loop: a line is kept when its 1-based number is below
      `start` or above `end`. */
  method DeleteLines(ls: seq<string>, start: nat, end: nat) returns (r: seq<string>)
    ensures r == DeletedRange(ls, start, end)
    ensures forall k :: 0 <= k < |ls| && (k + 1 < start || k + 1 > end) ==> ls[k] in r
  {
    r := [];
    var i := 0;
    var a := Clamp(start - 1, |ls|);
    var b := Clamp(end, |ls|);
    while i < |ls|
      invariant 0 <= i <= |ls|
      invariant start <= end ==> r == ls[..if i < a then i else a] + (if i > b then ls[b..i] else [])
      invariant start > end ==> r == ls[..i]
    {
      if i + 1 < start || i + 1 > end {
        r := r + [ls[i]];
      }
      i := i + 1;
    }
    assert ls[..|ls|] == ls;
    KeptLinesIn(ls, start, end, r);
  }

  lemma {:induction false} KeptLinesIn(ls: seq<string>, start: nat, end: nat, r: seq<string>)
    requires r == DeletedRange(ls, start, end)
    ensures forall k :: 0 <= k < |ls| && (k + 1 < start || k + 1 > end) ==> ls[k] in r
  {
    forall k | 0 <= k < |ls| && (k + 1 < start || k + 1 > end) ensures ls[k] in r {
      if start <= end {
        var a := Clamp(start - 1, |ls|);
        var b := Clamp(end, |ls|);
        if k + 1 < start {
          assert ls[k] == ls[..a][k];
        } else {
          assert ls[k] == ls[b..][k - b];
        }
      }
    }
  }

  /** Deleting the single line an insert added gives the lines back, and a
      non-empty in-file range removes exactly its own length. */
  lemma {:induction false} DeleteUndoesInsert(ls: seq<string>, i: nat, content: string)
    requires i < |ls|
    ensures DeletedRange(InsertedBefore(ls, i, content), i + 1, i + 1) == ls
  {
    var r := InsertedBefore(ls, i, content);
    assert r[..i] == ls[..i];
    assert r[i + 1..] == ls[i..];
    assert ls[..i] + ls[i..] == ls;
  }

  lemma {:induction false} DeletedRangeLength(ls: seq<string>, start: nat, end: nat)
    requires 1 <= start <= end <= |ls|
    ensures |DeletedRange(ls, start, end)| == |ls| - (end - start + 1)
    ensures DeletedRange(ls, start, end) == ls[..start - 1] + ls[end..]
  {
  }

  /** The source side of `apply_move_lines`: the block `[start-1, start-1+count)`
      must lie inside the file, and the remaining lines keep their order. */
  method CutLines(ls: seq<string>, startLine: nat, lineCount: nat) returns (r: Result<(seq<string>, seq<string>)>)
    ensures r.Err? <==> startLine == 0 || startLine - 1 + lineCount > |ls|
    ensures r.Ok? ==> r.value.0 == ls[startLine - 1..startLine - 1 + lineCount]
    ensures r.Ok? ==> r.value.1 == ls[..startLine - 1] + ls[startLine - 1 + lineCount..]
  {
    if startLine == 0 {
      return Err("attempt to subtract with overflow");
    }
    var s := startLine - 1;
    var e := s + lineCount;
    if e > |ls| {
      return Err("Line range out of bounds");
    }
    var kept: seq<string> := [];
    var i := 0;
    while i < |ls|
      invariant 0 <= i <= |ls|
      invariant kept == ls[..if i < s then i else s] + (if i > e then ls[e..i] else [])
    {
      if i < s || i >= e {
        kept := kept + [ls[i]];
      }
      i := i + 1;
    }
    assert ls[..|ls|] == ls;
    r := Ok((ls[s..e], kept));
  }

  /** The destination side: each moved line is inserted at `insert_line-1+i`.
      A zero `insert_line` underflows, and an index past the end makes the
      first insertion panic. */
  function InsertBlock(ls: seq<string>, insertLine: nat, block: seq<string>): (r: Result<seq<string>>)
    ensures r.Err? <==> insertLine == 0 || (insertLine - 1 > |ls| && |block| > 0)
    ensures r.Ok? && |block| > 0 ==>
              |r.value| == |ls| + |block| && insertLine - 1 <= |ls|
              && r.value[insertLine - 1..insertLine - 1 + |block|] == block
              && r.value[..insertLine - 1] + r.value[insertLine - 1 + |block|..] == ls
    ensures r.Ok? && |block| == 0 ==> r.value == ls
  {
    if insertLine == 0 then Err("attempt to subtract with overflow")
    else if |block| == 0 then Ok(ls)
    else if insertLine - 1 > |ls| then Err("insertion index should be <= len")
    else
      var i := insertLine - 1;
      var r := ls[..i] + block + ls[i..];
      assert r[i..i + |block|] == block;
      assert r[..i] + r[i + |block|..] == ls[..i] + ls[i..];
      assert ls[..i] + ls[i..] == ls;
      Ok(r)
  }

  // ---------------------------------------------------------------------------
  // Applying operations to files
  // ---------------------------------------------------------------------------

  /** What applying an operation leaves: the files as written so far, and
      whether it succeeded. A move whose destination step fails has already
      rewritten its source. */
  datatype Outcome = Outcome(files: Files, error: Option<string>)

  method ApplyOperation(files: Files, op: Operation) returns (out: Outcome)
    ensures op.MoveClass? ==> out == Outcome(files, Some("MoveClass requires session context"))
    ensures op.Replace? ==> (out.error.None? <==> op.file in files)
    ensures op.Replace? && out.error.None? ==> out.files == files[op.file := Strs.Replace(files[op.file], op.pattern, op.replacement)]
    ensures op.Delete? ==> (out.error.None? <==> op.file in files)
    ensures op.Delete? && out.error.None? ==>
              out.files == files[op.file := Join(DeletedRange(Lines(files[op.file]), op.startLine, op.endLine))]
    ensures op.Insert? ==> (out.error.None? <==> op.file in files)
    ensures op.Insert? && out.error.None? ==>
              out.files == files[op.file := Join(Inserted(Lines(files[op.file]), op.position, op.content))]
    ensures op.MoveLines? && CutFits(files, op) && op.source == op.destination ==>
              out == Outcome(files[op.source := Join(CutSpec(Lines(files[op.source]), op.startLine, op.lineCount))], None)
    ensures op.MoveLines? && !CutFits(files, op) ==> out.error.Some? && out.files == files
    ensures op.MoveLines? && CutFits(files, op) && op.source != op.destination ==>
              var written := files[op.source := Join(CutSpec(Lines(files[op.source]), op.startLine, op.lineCount))];
              var ins := InsertBlock(DestinationLines(written, op.destination), op.insertLine, MovedBlock(files, op));
              (out.error.None? <==> ins.Ok?)
              && (ins.Ok? ==> out.files == written[op.destination := Join(ins.value)])
              && (ins.Err? ==> out.files == written)
    ensures out.error.Some? && !op.MoveLines? ==> out.files == files
  {
    match op {
      case Replace(file, pattern, replacement) =>
        if file !in files {
          return Outcome(files, Some("No such file"));
        }
        return Outcome(files[file := Strs.Replace(files[file], pattern, replacement)], None);
      case Insert(file, position, content) =>
        out := ApplyInsert(files, file, position, content);
      case Delete(file, startLine, endLine, _) =>
        if file !in files {
          return Outcome(files, Some("No such file"));
        }
        var ls := DeleteLines(Lines(files[file]), startLine, endLine);
        return Outcome(files[file := Join(ls)], None);
      case MoveClass(_, _, _, _, _) =>
        return Outcome(files, Some("MoveClass requires session context"));
      case MoveLines(_, _, _, _, _, _) =>
        out := ApplyMoveLines(files, op);
    }
  }

  /** `apply_insert` on the file system. */
  method ApplyInsert(files: Files, file: string, position: InsertPosition, content: string) returns (out: Outcome)
    ensures out.error.None? <==> file in files
    ensures out.error.None? ==> out.files == files[file := Join(Inserted(Lines(files[file]), position, content))]
    ensures out.error.Some? ==> out.files == files
  {
    if file !in files {
      return Outcome(files, Some("No such file"));
    }
    var ls := ApplyInsertLines(Lines(files[file]), position, content);
    assert ls == Inserted(Lines(files[file]), position, content);
    return Outcome(files[file := Join(ls)], None);
  }

  /** `apply_move_lines`: the source is rewritten first, then the block is
      inserted into the destination; a move within one file stops after the
      cut. */
  method ApplyMoveLines(files: Files, op: Operation) returns (out: Outcome)
    requires op.MoveLines?
    ensures !CutFits(files, op) ==> out.error.Some? && out.files == files
    ensures CutFits(files, op) && op.source == op.destination ==>
              out == Outcome(files[op.source := Join(CutSpec(Lines(files[op.source]), op.startLine, op.lineCount))], None)
    ensures CutFits(files, op) && op.source != op.destination ==>
              var written := files[op.source := Join(CutSpec(Lines(files[op.source]), op.startLine, op.lineCount))];
              var ins := InsertBlock(DestinationLines(written, op.destination), op.insertLine, MovedBlock(files, op));
              (out.error.None? <==> ins.Ok?)
              && (ins.Ok? ==> out.files == written[op.destination := Join(ins.value)])
              && (ins.Err? ==> out.files == written)
  {
      if op.source !in files {
        return Outcome(files, Some("No such file"));
      }
      var cut := CutLines(Lines(files[op.source]), op.startLine, op.lineCount);
      if cut.Err? {
        return Outcome(files, Some(cut.msg));
      }
      var (block, kept) := cut.value;
      var written := files[op.source := Join(kept)];
      if op.source == op.destination {
        return Outcome(written, None);
      }
      var dest := DestinationLines(written, op.destination);
      var ins := InsertBlock(dest, op.insertLine, block);
      if ins.Err? {
        return Outcome(written, Some(ins.msg));
      }
      return Outcome(written[op.destination := Join(ins.value)], None);
  }

  /** Whether the source of a line move exists and holds the whole block. */
  predicate CutFits(files: Files, op: Operation)
    requires op.MoveLines?
  {
    op.source in files && 1 <= op.startLine && op.startLine - 1 + op.lineCount <= |Lines(files[op.source])|
  }

  /** The block a fitting line move carries. */
  function MovedBlock(files: Files, op: Operation): seq<string>
    requires op.MoveLines? && CutFits(files, op)
  {
    Lines(files[op.source])[op.startLine - 1..op.startLine - 1 + op.lineCount]
  }

  /** The destination's lines; an unreadable destination reads as empty. */
  function DestinationLines(files: Files, path: string): seq<string> {
    if path in files then Lines(files[path]) else []
  }

  /** The lines a successful cut leaves, as a reference. */
  function CutSpec(ls: seq<string>, startLine: nat, lineCount: nat): seq<string>
    requires 1 <= startLine && startLine - 1 + lineCount <= |ls|
  {
    ls[..startLine - 1] + ls[startLine - 1 + lineCount..]
  }

  // ---------------------------------------------------------------------------
  // The preview life cycle
  // ---------------------------------------------------------------------------

  const MaxPreviews: nat := 100
  const CleanupAgeSeconds: int := 3600

  /** A preview that cleanup keeps: recent, or neither confirmed nor
      applied. */
  predicate Kept(e: Entry, now: int) {
    e.createdAt > now - CleanupAgeSeconds || (!e.confirmed && !e.applied)
  }

  /** `cleanup_old_previews`. */
  function Cleanup(previews: map<string, Entry>, now: int): (r: map<string, Entry>)
    ensures r.Keys <= previews.Keys
    ensures forall id :: id in previews ==> (id in r <==> Kept(previews[id], now))
    ensures forall id :: id in r ==> r[id] == previews[id]
  {
    map id | id in previews && Kept(previews[id], now) :: previews[id]
  }

  /** `add_preview`: with 100 or more previews stored, old finished ones are
      dropped first; then the new entry is stored under its id, neither
      confirmed nor applied. */
  function AddPreview(previews: map<string, Entry>, id: string, op: Operation, now: int): (r: map<string, Entry>)
    ensures id in r && r[id] == Entry(id, op, now, false, false)
    ensures forall k :: k in previews && k != id && !previews[k].confirmed && !previews[k].applied ==>
              k in r && r[k] == previews[k]
    ensures |previews| < MaxPreviews ==> r == previews[id := Entry(id, op, now, false, false)]
  {
    var base := if |previews| >= MaxPreviews then Cleanup(previews, now) else previews;
    base[id := Entry(id, op, now, false, false)]
  }

  /** `confirm_preview`: an unknown or applied preview is an error; otherwise
      it becomes confirmed, also when it already was. */
  function Confirm(previews: map<string, Entry>, id: string): (r: Result<map<string, Entry>>)
    ensures r.Ok? <==> id in previews && !previews[id].applied
    ensures r.Ok? ==> r.value == previews[id := previews[id].(confirmed := true)]
  {
    if id !in previews then Err("Preview not found: " + id)
    else if previews[id].applied then Err("Preview already applied")
    else Ok(previews[id := previews[id].(confirmed := true)])
  }

  /** `apply_preview`: only a confirmed, not yet applied preview is run; it
      is marked applied only when its operation succeeds. */
  method Apply(previews: map<string, Entry>, files: Files, id: string)
    returns (previews': map<string, Entry>, files': Files, error: Option<string>)
    ensures error.None? ==> id in previews && previews[id].confirmed && !previews[id].applied
                            && !previews[id].operation.MoveClass?
    ensures id !in previews || !previews[id].confirmed || previews[id].applied ==>
              error.Some? && previews' == previews && files' == files
    ensures error.None? ==> previews' == previews[id := previews[id].(applied := true)]
    ensures error.Some? ==> previews' == previews
    ensures id in previews && previews[id].operation.MoveClass? ==> error.Some? && files' == files
  {
    if id !in previews {
      return previews, files, Some("Preview not found: " + id);
    }
    var e := previews[id];
    if !e.confirmed {
      return previews, files, Some("Preview not confirmed");
    }
    if e.applied {
      return previews, files, Some("Preview already applied");
    }
    var out := ApplyOperation(files, e.operation);
    if out.error.Some? {
      return previews, out.files, out.error;
    }
    return previews[id := e.(applied := true)], out.files, None;
  }

  /** Once applied, a preview can be neither applied nor confirmed again. */
  lemma {:induction false} AppliedIsFinal(previews: map<string, Entry>, id: string)
    requires id in previews && previews[id].applied
    ensures Confirm(previews, id).Err?
  {
  }
}
