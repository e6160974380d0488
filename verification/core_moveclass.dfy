/** The class-move engine of the analysis core: option defaults, the result
    record, the preview and move entry points (which validate only that the
    source file exists) and the brace scan that finds a class's extent in
    its source text. The file-system test is a parameter. */
module CoreMoveClass {
  import opened Wrappers
  import opened Strs
  import opened Braces

  datatype MoveOptions = MoveOptions(
    updateImports: bool,
    moveRelatedSymbols: bool,
    createBackup: bool,
    dryRun: bool,
    verbose: bool)

  /** `MoveOptions::default`: update imports, move related symbols and back
      up, for real and quietly. */
  function DefaultOptions(): (o: MoveOptions)
    ensures o.updateImports && o.moveRelatedSymbols && o.createBackup
    ensures !o.dryRun && !o.verbose
  {
    MoveOptions(true, true, true, false, false)
  }

  datatype MoveResult = MoveResult(
    success: bool,
    movedSymbols: seq<string>,
    updatedFiles: seq<string>,
    addedImports: seq<string>,
    removedImports: seq<string>,
    errors: seq<string>,
    warnings: seq<string>)

  /** `MoveResult::new`: a failed result with every list empty. */
  function NewResult(): (r: MoveResult)
    ensures !r.success
    ensures r.movedSymbols == r.updatedFiles == r.addedImports == r.removedImports == []
    ensures r.errors == r.warnings == []
  {
    MoveResult(false, [], [], [], [], [], [])
  }

  /** `MoveResult::with_error`: a failed result whose only content is the
      one error. */
  function WithError(e: string): (r: MoveResult)
    ensures !r.success && r.errors == [e]
    ensures r.(errors := []) == NewResult()
  {
    NewResult().(errors := [e])
  }

  function MissingSource(source: string): string {
    "Source file does not exist: " + source
  }

  function PreviewWarning(className: string, source: string, target: string): string {
    "Preview: Would move class '" + className + "' from '" + source + "' to '" + target + "'"
  }

  const BasicMoveWarning: string :=
    "MoveClass functionality is a basic implementation - full C++ migration patterns would be implemented here"

  /** `preview_move`; `sourceExists` is the file-system test on the source. */
  function PreviewMove(opts: MoveOptions, className: string, source: string, target: string,
                       sourceExists: bool): (r: MoveResult)
    ensures r.success <==> sourceExists
    ensures !sourceExists ==> r == WithError(MissingSource(source))
    ensures sourceExists ==> r.movedSymbols == [className] && r.updatedFiles == [source, target]
    ensures sourceExists ==> r.errors == [] && r.addedImports == [] && r.removedImports == []
    ensures sourceExists ==> (r.warnings != [] <==> opts.verbose)
  {
    if !sourceExists then WithError(MissingSource(source))
    else
      var r := NewResult().(success := true, movedSymbols := [className], updatedFiles := [source, target]);
      if opts.verbose then r.(warnings := [PreviewWarning(className, source, target)]) else r
  }

  /** `move_class`: a dry run is the preview; otherwise the move reports the
      class as moved but lists no updated files. */
  function MoveClass(opts: MoveOptions, className: string, source: string, target: string,
                     sourceExists: bool): (r: MoveResult)
    ensures opts.dryRun ==> r == PreviewMove(opts, className, source, target, sourceExists)
    ensures r.success <==> sourceExists
    ensures !sourceExists ==> r == WithError(MissingSource(source))
    ensures !opts.dryRun && sourceExists ==>
              r.movedSymbols == [className] && r.updatedFiles == [] && r.errors == []
    ensures !opts.dryRun && sourceExists ==> r.warnings == [BasicMoveWarning]
  {
    if opts.dryRun then PreviewMove(opts, className, source, target, sourceExists)
    else if !sourceExists then WithError(MissingSource(source))
    else NewResult().(success := true, movedSymbols := [className], warnings := [BasicMoveWarning])
  }

  /** Every result either succeeds with no errors or fails with exactly one. */
  lemma {:induction false} MoveOutcomeConsistent(opts: MoveOptions, className: string, source: string,
                                                 target: string, sourceExists: bool)
    ensures var r := MoveClass(opts, className, source, target, sourceExists);
            (r.success ==> r.errors == []) && (!r.success ==> |r.errors| == 1)
    ensures var r := MoveClass(opts, className, source, target, sourceExists);
            r.success ==> r.movedSymbols == [className]
  {
  }

  function ClassHeader(name: string): string {
    "class " + name
  }

  /** `find_class_boundaries`: from the first occurrence of `class <name>`,
      the offset of that occurrence and the offset just past the `}` that
      closes the first block opened after it. */
  function FindClassBoundaries(content: string, name: string): (r: Option<(nat, nat)>)
    ensures r.Some? ==> Find(content, ClassHeader(name)) == Some(r.value.0)
    ensures r.Some? ==> r.value.0 < r.value.1 <= |content| && content[r.value.1 - 1] == '}'
    ensures Find(content, ClassHeader(name)).None? ==> r.None?
  {
    match Find(content, ClassHeader(name))
    case None => None
    case Some(start) =>
      var close := CloseFrom(content, start, 0, false);
      if close.Some? then
        CloseEndsWithBrace(content, start, 0, false);
        Some((start, close.value))
      else None
  }

  /** The extent found is a balanced block: from the first `{` after the
      header, the end is the first offset where the depth counted from that
      `{` returns to zero, and there is no extent exactly when no `{`
      follows the header or the block never closes. */
  lemma {:induction false} ClassBoundariesBalanced(content: string, name: string)
    requires Find(content, ClassHeader(name)).Some?
    ensures var start := Find(content, ClassHeader(name)).value;
            FindClassBoundaries(content, name).Some? <==>
              FirstOpen(content, start).Some? && !NeverCloses(content, FirstOpen(content, start).value + 1, 1)
    ensures var start := Find(content, ClassHeader(name)).value;
            FindClassBoundaries(content, name).Some? ==>
              ClosesAt(content, FirstOpen(content, start).value + 1, 1, FindClassBoundaries(content, name).value.1)
  {
    var start := Find(content, ClassHeader(name)).value;
    BlockEndSpec(content, start);
  }

  /** The header is matched as a plain prefix: looking for `Foo` finds the
      class `FooBar`. */
  lemma PrefixNameMatches()
    ensures FindClassBoundaries("class FooBar{}", "Foo") == Some((0, 14))
  {
    var s := "class FooBar{}";
    assert Occurs(s, ClassHeader("Foo"), 0);
    assert CloseFrom(s, 12, 0, false) == Some(14);
  }
}
