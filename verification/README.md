# nekocode-rust, modelled in Dafny

nekocode is a multi-language source-code analyzer written in Rust. It reads
source files in JavaScript/TypeScript, Python, C++, C#, Rust and Go; it
extracts functions, classes, imports and a complexity rating from each; it
gathers the per-file results into a directory summary; it keeps them in
analysis sessions that can be queried and updated incrementally; and it
offers preview-then-confirm text edits (replace, insert, move lines, move a
class or symbol). A split workspace version of the same tool ships several
binaries: `nekocode` (analysis), `nekoinc` (incremental analysis and file
watching), `nekorefactor` (edits), `nekoimpact` (change-impact reports),
plus a shared `nekocode-core` crate (sessions, memory notes, types).

This project models the pure logic of those parts as immutable Dafny
datatypes and functions, and proves what the code promises about them:

- the data model of both type crates: languages by extension, the
  complexity rating, per-file statistics, the directory summary;
- the two syntax trees, their queries (by type, by path, by line), the
  statistics fold, and the scope-stack tree builder;
- the parts of every language analyzer that do not depend on its parser:
  keyword-count complexity, brace and indentation depth, line statistics,
  the line finders, block-end finders, and how each analyzer assembles its
  tree from the functions and classes it found;
- the sessions of the single-crate tool and of the core crate: adding,
  replacing and removing files, statistics, symbol search, the include
  graph and its cycle search, and the change detector of incremental
  analysis;
- the edit engines: match finding, literal replace, insert, move lines,
  the class mover and the symbol mover, and the insert-position syntax of
  the refactoring command line;
- both impact analyses, the memory-note store and the file watcher's
  event filter and its registry of active watchers.

Files, clocks, process ids, the network and the parsers are outside the
model: file contents, timestamps and parser outputs are parameters.
Files are maps from path text to content; `str::lines()` is modelled by
`TextLines.Lines` and re-joining by `TextLines.Join`.

Each module sits in its own file: `wrappers`, `strs`, `seqs`,
`text_lines`, `paths` and `langs` are shared helpers; `core_types` and
`shared_types` are the two type crates; `ast`, `workspace_ast` and
`analysis_ast` are the syntax trees; `scanners`, `braces`, `c_family` and
one file per analyzer model the analyzers; `sessions`, `core_session` and
`incremental` the sessions; `preview`, `refactor_preview`,
`refactor_replace`, `refactor_cli`, `core_moveclass` and `move_symbol` the
edits; `core_impact`, `neko_impact` and `impact_options` the impact
reports; `memory` and `watch` the rest.

## Model

| member | source | states |
|---|---|---|
| Ast.NewNode | src/core/ast.rs:182-197 | a new node is a detached leaf: its full name is its name, and it has depth 0, zeroed positions and an empty scope path |
| Ast.ChildScopePathExtends | src/core/ast.rs:207-213 | a child's scope path is its own name under an empty parent scope; otherwise it is the parent path, then "::", then the name |
| Ast.AddChild | src/core/ast.rs:200-204 | the child is appended last, one level deeper than its parent, and keeps its name and its own children; the parent's earlier children and other fields are unchanged |
| Ast.FindChildrenByType | src/core/ast.rs:216-221 | the result is exactly the direct children of the given type, in their order (a filter of the children) |
| Ast.DescendantsSpec | src/core/ast.rs:224-238 | the descendants found are exactly the proper descendants of the type, in depth-first pre-order |
| Ast.QuerySpec | src/core/ast.rs:241-256 | the query returns exactly the nodes of the tree, the receiver included, whose scope path or full name equals the path, in pre-order |
| Ast.FindNodeAtLine | src/core/ast.rs:259-273 | the result is None exactly when the receiver's range misses the line; otherwise it is a node of the tree that covers the line and none of whose children covers it |
| Ast.FirstAtLine | src/core/ast.rs:262-267 | over a child list, the search answers with the search in the first child that covers the line, and with nothing when no child covers it |
| Ast.DescentFindsNode | src/core/ast.rs:259-273 | a path that starts at the receiver, passes only nodes covering the line, steps each time into the first covering child and ends at a node with no covering child ends at the node the search returns |
| Ast.FoundByDescent | src/core/ast.rs:259-273 | whenever the receiver covers the line, such a first-covering-child path leads from the receiver to the node the search returns |
| Ast.MergeLaws | src/core/ast.rs:409-421 | merging statistics is associative and commutative, with the empty statistics as unit |
| Ast.CollectStatsIsFlat | src/core/ast.rs:368-406 | the recursive statistics of a node equal the statistics of its pre-order node list taken flat |
| Ast.UpdateFromRootSpec | src/core/ast.rs:361-365 | the total is the node count, the per-type counts add up to it, the maximum depth is attained by some node and bounds every node, and the function and control-structure counts are the counts of those types |
| Ast.NewBuilder | src/core/ast.rs:432-437 | a new builder is well formed: an empty file root, with an empty scope stack |
| Ast.EnterScope | src/core/ast.rs:440-450 | the new node is appended to the current scope and becomes the current scope; it has the given type, name and start line and no children; the builder stays well formed |
| Ast.ExitScope | src/core/ast.rs:453-461 | at the root nothing changes; otherwise the current scope receives its end line and the stack pops one level |
| Ast.AddNode | src/core/ast.rs:464-470 | a one-line leaf with the given type, name and line is appended to the current scope, which stays current |
| Ast.AppendAtFacts | src/core/ast.rs:482-489 | adding below the node at a path applies add_child to exactly that node and keeps the tree well formed |
| Ast.BuiltRootFindsNoLine | src/core/ast.rs:432-437 | a built tree's root keeps the range 0..0, so a line lookup from line 1 on finds nothing |
| CoreTypes.FromExtensionIgnoresCase | src/core/types.rs:37-50 | the language of an extension is the language of its lowercased text |
| CoreTypes.FromExtensionNeedsDot | src/core/types.rs:37-50 | an extension without its leading dot is Unknown |
| CoreTypes.DefaultExtensionsKnown | src/core/types.rs:595-605 | every extension the default configuration includes names a language; ".C" and ".H" are lowercased first and so read as C |
| CoreTypes.UpdateRating | src/core/types.rs:123-138 | the rating is Simple iff cyclomatic is at most 10, Moderate iff it is in 11..20, Complex iff in 21..50, VeryComplex iff above 50; the emoji follows the rating and nothing else changes |
| CoreTypes.RatingMonotone | src/core/types.rs:123-138 | more cyclomatic complexity never gives a milder rating |
| CoreTypes.UpdateRatingIdempotent | src/core/types.rs:123-138 | rating twice equals rating once |
| CoreTypes.NewComplexity | src/core/types.rs:111-121 | a new record has cyclomatic 1, depth 0, cognitive 0, and is rated Simple |
| CoreTypes.NewComplexityRated | src/core/types.rs:111-121 | a new complexity record is already consistent with its rating |
| CoreTypes.NewFunction | src/core/types.rs:169-181 | a new function is named, at line 0, without parameters, flags or metadata, and has a new complexity record |
| CoreTypes.FullName | src/core/types.rs:351-361 | the full name always ends with the function name; it is "object.function" for a method call with a known object, and the bare name iff not |
| CoreTypes.NewFileInfo | src/core/types.rs:68-84 | a new file record keeps its path, has zero counts, and is named after the path's last component, or "unknown" when the path has none |
| CoreTypes.NewFileInfoName | src/core/types.rs:68-84 | a clean path ending in a proper name gives a file record with that name |
| CoreTypes.NewAnalysisResult | src/core/types.rs:453-470 | a new result has no constructs, calls or comments, a new complexity record, zero statistics and no tree |
| CoreTypes.UpdateStatistics | src/core/types.rs:473-481 | each count is the length of its list, unique calls is the number of distinct called names, and only the statistics change |
| CoreTypes.UpdateStatisticsIdempotent | src/core/types.rs:473-481 | recomputing the statistics a second time changes nothing |
| CoreTypes.NewResultStatistics | src/core/types.rs:453-481 | a new result's recomputed statistics are all zero |
| CoreTypes.UpdateSummary | src/core/types.rs:541-572 | the files and the directory are kept, and the file total is the number of files |
| CoreTypes.UpdateSummarySpec | src/core/types.rs:541-572 | the summary holds the sums of lines, sizes, classes, functions and complexity, the large and complex file counts, the maximum complexity, and the name of the first file that reaches it (empty when the maximum is 0) |
| CoreTypes.AccumulateMaxRaise | src/core/types.rs:562-565 | a file strictly more complex than every earlier file becomes the most complex file |
| CoreTypes.AccumulateMaxKeep | src/core/types.rs:562-565 | a file no more complex than the current maximum changes neither the maximum nor the name |
| CoreTypes.UpdateSummaryIdempotent | src/core/types.rs:541-572 | the summary does not depend on the summary it replaces, so updating twice equals updating once |
| SharedTypes.ExtensionsRoundTrip | nekocode-workspace/nekocode-core/src/types.rs:35-67 | every extension a language lists is read back as that language, and only Unknown lists none |
| SharedTypes.FromExtensionListed | nekocode-workspace/nekocode-core/src/types.rs:35-67 | conversely, a recognised extension, lowercased, is one of those its language lists |
| SharedTypes.FromPath | nekocode-workspace/nekocode-core/src/types.rs:49-54 | a path without an extension has language Unknown |
| SharedTypes.FromPathOfFileName | nekocode-workspace/nekocode-core/src/types.rs:49-54 | the language of a plain file name "stem.ext" is the language of "ext" |
| SharedTypes.DottedAgrees | nekocode-workspace/nekocode-core/src/types.rs:35-47 | the dotted table of the single-crate tool gives the same language for every extension listed here, except "h++" and "c++" |
| SharedTypes.DottedLacksPlusPlus | nekocode-workspace/nekocode-core/src/types.rs:38 | only the core crate's table reads "h++" and "c++" as C++; the single-crate table reads them as Unknown |
| SharedTypes.NewFileInfo | nekocode-workspace/nekocode-core/src/types.rs:109-131 | a new file record keeps its path, takes the language of its extension, has zero counts and no hash, and is named as in the single-crate tool |
| SharedTypes.GetSymbolsByType | nekocode-workspace/nekocode-core/src/types.rs:287-292 | exactly the symbols of the type, in their original order |
| SharedTypes.SymbolsByTypeDisjoint | nekocode-workspace/nekocode-core/src/types.rs:287-292 | the symbols of two different types never overlap |
| SharedTypes.GetSymbolById | nekocode-workspace/nekocode-core/src/types.rs:295-297 | None iff no symbol has the id; otherwise the first symbol with that id |
| SharedTypes.FromScoreAgrees | nekocode-workspace/nekocode-core/src/types.rs:314-321 | the score bands agree with the single-crate rating of the same cyclomatic count |
| Paths.Components | nekocode-workspace/nekocode-core/src/io.rs:130 | the components of a path text are well formed: a root only first, no "." after the first piece, no empty names |
| Paths.FileName | nekocode-workspace/nekocode-core/src/io.rs:148-153 | a file name exists iff the last component is a name, and it is a valid name |
| Paths.NameExtension | nekocode-workspace/nekocode-core/src/types.rs:49-54 | the extension is the text after the last dot; there is none iff the name is empty or has no dot after its first character |
| Paths.RenderComponents | nekocode-workspace/nekocode-core/src/io.rs:144 | writing a clean component sequence out and reading it back gives it back |
| Paths.Normalize | nekocode-workspace/nekocode-core/src/io.rs:127-145 | the result has no "." or ".." components and is no longer than its input |
| Paths.NormalizeClean | nekocode-workspace/nekocode-core/src/io.rs:127-145 | a path without "." and ".." is left as it is |
| Paths.NormalizeParent | nekocode-workspace/nekocode-core/src/io.rs:132-134 | ".." cancels the name before it |
| Paths.NormalizeIdempotent | nekocode-workspace/nekocode-core/src/io.rs:127-145 | normalizing, writing out, reading back and normalizing again changes nothing |
| Paths.MakeRelative | nekocode-workspace/nekocode-core/src/io.rs:120-124 | when the base is a component prefix, base followed by the result is the path; otherwise the result is the path |
| Paths.MakeRelativeOfJoin | nekocode-workspace/nekocode-core/src/io.rs:120-124 | a path made by joining a base and a rest is made relative to the base as the rest |
| Paths.HiddenIff | nekocode-workspace/nekocode-core/src/io.rs:148-153 | a clean path ending in a name is hidden exactly when the name starts with a dot |
| Paths.NotHiddenWithoutName | nekocode-workspace/nekocode-core/src/io.rs:148-153 | a path whose last component is not a name is not hidden |
| Paths.ShouldIgnore | nekocode-workspace/nekocode-core/src/io.rs:45-52 | true exactly when some pattern occurs in the path text |
| WorkspaceAst.MapNodeKind | nekocode-workspace/nekocode/src/ast.rs:87-108 | a kind is Other exactly when it is not in the mapped table, and Other keeps the kind unchanged |
| WorkspaceAst.NewNode | nekocode-workspace/nekocode/src/ast.rs:47-58 | a new node has the type, empty text, zero positions, and no children or metadata |
| WorkspaceAst.FindSpec | nekocode-workspace/nekocode/src/ast.rs:111-132 | the nodes found are exactly the nodes of the type in pre-order, the receiver included, and there are count_node_type of them |
| WorkspaceAst.DepthSpec | nekocode-workspace/nekocode/src/ast.rs:135-141 | a node is deeper than each child and exactly one deeper than some child when it has children |
| WorkspaceAst.MaxDepthSpec | nekocode-workspace/nekocode/src/ast.rs:139 | the largest child depth bounds every child and is reached by one |
| WorkspaceAst.DepthAtMostSize | nekocode-workspace/nekocode/src/ast.rs:135-141 | a tree is never deeper than it has nodes |
| WorkspaceAst.FromAstSpec | nekocode-workspace/nekocode/src/ast.rs:155-198 | the statistics hold the node count, per-type counts over the pre-order list, the tree's depth, and the control-structure score with loops and switches weighted 2 |
| WorkspaceAst.FindByPathParts | nekocode-workspace/nekocode/src/ast.rs:222-252 | a node found lies in the tree and answers to the last path segment by text or name |
| WorkspaceAst.QueryByPath | nekocode-workspace/nekocode/src/ast.rs:217-220 | a node found lies in the tree |
| WorkspaceAst.QueryPlainName | nekocode-workspace/nekocode/src/ast.rs:217-252 | a path without "::" finds the first node in pre-order whose text or name equals it |
| AnalysisAst.MethodNodes | src/analyzers/cpp/analyzer.rs:249-253 | one Method leaf per method, in order, each at its start line moved down to the class start when it lies above it |
| AnalysisAst.ClassNodes | src/analyzers/cpp/analyzer.rs:245-257 | one class node per class, in order, each built from its found or recorded start line |
| AnalysisAst.AddMethods | src/analyzers/cpp/analyzer.rs:249-253 | the method loop keeps the builder well formed and stays in the same scope |
| AnalysisAst.AddClass | src/analyzers/cpp/analyzer.rs:245-257 | one class step leaves a well-formed builder back at the root scope |
| AnalysisAst.AddClasses | src/analyzers/cpp/analyzer.rs:245-257 | the class loop leaves a well-formed builder back at the root scope |
| AnalysisAst.AddFunctions | src/analyzers/cpp/analyzer.rs:260-268 | the function loop keeps the builder well formed and stays in the same scope |
| AnalysisAst.AddMethodsSpec | src/analyzers/cpp/analyzer.rs:249-253 | the method loop fills the class scope it runs in with exactly the method leaves, and changes nothing else |
| AnalysisAst.AddClassesSpec | src/analyzers/cpp/analyzer.rs:245-257 | the class loop appends exactly the expected class nodes to the root |
| AnalysisAst.AddFunctionsSpec | src/analyzers/cpp/analyzer.rs:260-268 | the function loop appends exactly the expected function leaves to the root |
| AnalysisAst.BuildAstIsExpected | src/analyzers/cpp/analyzer.rs:239-271 | running the builder yields exactly the expected tree |
| AnalysisAst.FunctionNodesSkipTagged | src/analyzers/cpp/analyzer.rs:261-263 | the function leaves are one per function not tagged as a method, in order |
| AnalysisAst.ClassNodesAsPromised | src/analyzers/cpp/analyzer.rs:245-257 | each class node is a Class with the class's name, starting at the found line or else the recorded one, ending after it starts and no earlier than the recorded end, holding one Method per method at or below the class start |
| AnalysisAst.FunctionNodesAsPromised | src/analyzers/cpp/analyzer.rs:260-268 | each function leaf is a Function with the function's name, at the found line, or else at the recorded line but not before line 1 |
| AnalysisAst.BuildAstShape | src/analyzers/cpp/analyzer.rs:239-271 | the tree is an unpositioned file root holding the class scopes, then one Function leaf for each function that is not tagged as a method |
| AnalysisAst.AttachAst | src/analyzers/cpp/analyzer.rs:113-119 | a tree is attached exactly when some function or some class was found |
| Scanners.KeywordTotalZeroIff | src/analyzers/cpp/analyzer.rs:36-39 | the summed keyword counts are zero exactly when no keyword occurs in the text |
| Scanners.OnePlusTotalIff | src/analyzers/cpp/analyzer.rs:27-39 | one plus the keyword total plus an extra term is one exactly when no keyword occurs and the extra term is zero |
| Scanners.KeywordTotalCovers | src/analyzers/cpp/analyzer.rs:36-39 | each keyword's own count is part of the total |
| Scanners.HalvedTotalZeroIff | src/analyzers/csharp/analyzer.rs:42-46 | the halved LINQ counts add nothing exactly when each LINQ keyword occurs at most once |
| Scanners.HalvedTotalBound | src/analyzers/csharp/analyzer.rs:42-46 | halving each count never gives more than half the total |
| Scanners.Rated | src/core/types.rs:111-138 | a fresh record with the given cyclomatic count and depth, rated: Simple iff at most 10, VeryComplex iff above 50 |
| Scanners.CountLines | src/analyzers/cpp/analyzer.rs:85-97 | the total is the number of lines; empty, comment and code are the counts of lines of each kind, and they add up to the total |
| Scanners.Tally | src/analyzers/cpp/analyzer.rs:88-97 | one pass counts each kind exactly, and every line counts once |
| Scanners.WiderCommentTest | src/analyzers/python/analyzer.rs:533-545 | a wider comment test leaves the empty count alone and never lowers the comment count |
| Scanners.FirstLine | src/analyzers/cpp/analyzer.rs:275-294 | the 1-based number of the first line the test accepts; None exactly when no line is accepted |
| Scanners.FirstLineSameTest | src/analyzers/cpp/analyzer.rs:275-294 | two tests that agree on every line find the same line |
| Scanners.FirstLineNarrower | src/analyzers/cpp/analyzer.rs:275-294 | a narrower test never finds an earlier line |
| Braces.CloseFromInside | src/core/moveclass.rs:153-169 | inside a block the scan stops just past the first offset where the depth returns to zero, and finds nothing when it never does |
| Braces.FirstOpen | src/core/moveclass.rs:155-157 | the offset of the first "{" at or after the start, None when there is none |
| Braces.CloseFromOutside | src/core/moveclass.rs:153-169 | a "}" before the first "{" is ignored; from the first "{" on, the scan is the scan inside a block of depth one |
| Braces.BlockEndSpec | src/core/moveclass.rs:148-171 | the scan finds an end exactly when there is a "{" whose block closes, and the end is where that block's depth first returns to zero |
| Braces.CloseEndsWithBrace | src/core/moveclass.rs:159-163 | the end found lies just past a "}" |
| Braces.NestingDepth | src/analyzers/cpp/analyzer.rs:42-58 | the depth loop returns the peak depth, which bounds the depth after every prefix of the text |
| Braces.PeakBounds | src/analyzers/cpp/analyzer.rs:42-58 | the peak bounds the depth after every prefix |
| Braces.PeakAtLeastDepth | src/analyzers/cpp/analyzer.rs:42-58 | the depth after the whole text is at most the peak |
| Braces.PeakAttained | src/analyzers/cpp/analyzer.rs:42-58 | the peak is the depth after some prefix |
| CoreMoveClass.DefaultOptions | src/core/moveclass.rs:25-35 | the defaults update imports, move related symbols and make backups, not as a dry run, quietly |
| CoreMoveClass.NewResult | src/core/moveclass.rs:57-67 | a new result has failed and every list is empty |
| CoreMoveClass.WithError | src/core/moveclass.rs:69-73 | a failed result whose one content is the given error |
| CoreMoveClass.PreviewMove | src/core/moveclass.rs:93-113 | success iff the source exists; a missing source gives the error result; otherwise the class is listed as moved, source and target as updated, and a warning appears iff verbose |
| CoreMoveClass.MoveClass | src/core/moveclass.rs:116-142 | a dry run is the preview; otherwise success iff the source exists, and a move lists the class as moved, no updated files and the one fixed warning |
| CoreMoveClass.MoveOutcomeConsistent | src/core/moveclass.rs:93-142 | every result either succeeds with no errors and the class moved, or fails with exactly one error |
| CoreMoveClass.FindClassBoundaries | src/core/moveclass.rs:145-172 | the extent starts at the first occurrence of "class name" and ends just past a "}" further on; no occurrence gives None |
| CoreMoveClass.ClassBoundariesBalanced | src/core/moveclass.rs:148-171 | an extent is found iff a block opens after the header and closes; its end is where that block's depth first returns to zero |
| CoreMoveClass.PrefixNameMatches | src/core/moveclass.rs:148 | the header is matched as a plain prefix: looking for Foo finds the class FooBar |
| CFamily.BraceComplexity | src/analyzers/cpp/analyzer.rs:26-63 | cyclomatic is one plus every keyword occurrence plus the extra term, and is one iff nothing counts; the depth is the peak brace depth, attained and bounding; the record is rated |
| CFamily.LineStatistics | src/analyzers/cpp/analyzer.rs:85-97 | lines are counted once each as empty, comment (starting "//" or the block-comment opener) or code, adding up to the line total |
| CFamily.FindDeclLine | src/analyzers/cpp/analyzer.rs:275-294 | the first line the C++ and C# rule accepts, with no earlier line accepted; None iff no line is accepted |
| CFamily.FindPrefixLine | src/analyzers/rust/analyzer.rs:174-190 | the first line the Rust and Go rule accepts, with no earlier line accepted; None iff no line is accepted |
| CFamily.DeclLineIff | src/analyzers/cpp/analyzer.rs:285-289 | the C++ and C# keyword rule holds exactly when the trimmed line starts with "keyword name"; its first two tests add nothing |
| CFamily.DeclNoEarlierThanPrefix | src/analyzers/rust/analyzer.rs:184-187 | where the C++ and C# rule finds a line, the Rust and Go rule finds that line or an earlier one |
| CFamily.RulesAgreeWithoutKeyword | src/analyzers/cpp/analyzer.rs:278-282 | with an empty keyword both rules find the same line |
| CppAnalyzer.KeywordsNonEmpty | src/analyzers/cpp/analyzer.rs:30-34 | the C++ table has 15 keywords, none empty |
| CppAnalyzer.CalculateComplexity | src/analyzers/cpp/analyzer.rs:26-63 | cyclomatic is one plus every C++ keyword occurrence, and is one iff no keyword occurs; the depth is the peak brace depth; the record is rated |
| CppAnalyzer.BuildAstFromAnalysis | src/analyzers/cpp/analyzer.rs:239-271 | a file root holding one class scope per class, placed by its "class" line, then one Function leaf per function not tagged "is_class_method", placed by the name-only rule |
| CSharpAnalyzer.KeywordsNonEmpty | src/analyzers/csharp/analyzer.rs:30-34 | the C# table has 19 keywords, none empty |
| CSharpAnalyzer.CalculateComplexity | src/analyzers/csharp/analyzer.rs:26-71 | cyclomatic is one plus every keyword occurrence plus each LINQ keyword's count halved; it is one iff no keyword occurs and no LINQ keyword occurs twice; the depth is the peak brace depth; rated |
| CSharpAnalyzer.BuildAstFromAnalysis | src/analyzers/csharp/analyzer.rs:254-287 | a file root holding one class scope per class, placed by its "class" line, then one Function leaf per function not tagged "is_class_method" |
| RustAnalyzer.KeywordsNonEmpty | src/analyzers/rust/analyzer.rs:21-24 | the Rust table has 13 keywords, none empty |
| RustAnalyzer.CalculateComplexity | src/analyzers/rust/analyzer.rs:18-55 | cyclomatic is one plus every keyword occurrence plus every match arm " => "; it is one iff none occurs; the depth is the peak brace depth; rated |
| RustAnalyzer.BuildAstFromAnalysis | src/analyzers/rust/analyzer.rs:138-171 | a file root holding one scope per struct, placed by its "struct" line, then one Function leaf per function not tagged "is_method", placed by its "fn" line |
| GoAnalyzer.KeywordsNonEmpty | src/analyzers/go/analyzer.rs:21-24 | the Go table has 11 keywords, none empty |
| GoAnalyzer.CalculateComplexity | src/analyzers/go/analyzer.rs:18-52 | cyclomatic is one plus every Go keyword occurrence, one iff none occurs; the depth is the peak brace depth; rated |
| GoAnalyzer.BuildAstFromAnalysis | src/analyzers/go/analyzer.rs:121-154 | a file root holding one scope per type, placed by its "type" line, then one Function leaf per function not tagged "is_method", placed by its "func" line |
| PyAnalyzer.KeywordsNonEmpty | src/analyzers/python/analyzer.rs:363-367 | the Python table has 17 keywords, none empty |
| PyAnalyzer.IndentDepth | src/analyzers/python/analyzer.rs:378-391 | the result bounds the indentation level (leading whitespace over four) of every line that is neither blank nor a comment, and is 0 or the level of some such line |
| PyAnalyzer.CyclomaticOneIff | src/analyzers/python/analyzer.rs:369-375 | the count stays at one exactly when no keyword occurs and there are fewer than four "[" and "{" together |
| PyAnalyzer.CalculateComplexity | src/analyzers/python/analyzer.rs:359-396 | cyclomatic is one plus every keyword occurrence plus a quarter of the bracket count, one iff neither contributes; the depth is the deepest indentation level of a counted line; rated |
| PyAnalyzer.FindLineNumber | src/analyzers/python/analyzer.rs:425-433 | the first line whose trimmed text contains the construct and the name and does not start with "#"; None iff there is none |
| PyAnalyzer.DedentFrom | src/analyzers/python/analyzer.rs:450-460 | the first line at or after the index that is neither blank nor a comment and is indented no deeper than the base; None iff there is none |
| PyAnalyzer.BlockEndLine | src/analyzers/python/analyzer.rs:436-461 | past the end the start line itself; otherwise a line number from the start to the file length such that every line strictly between the header and it is blank, a comment or indented deeper, and the line at the result (when there is one) ends the block |
| PyAnalyzer.TrailingBlankAndCommentIncluded | src/analyzers/python/analyzer.rs:450-460 | blank and comment lines after a body are skipped, so a header, body, blank, comment, dedented line gives end line 4 |
| PyAnalyzer.ExtractMethodName | src/analyzers/python/analyzer.rs:498-512 | a name found is never empty |
| PyAnalyzer.ExtractMethodNameOfDef | src/analyzers/python/analyzer.rs:498-512 | the text between "def " and "(" is read back as the name when it is trimmed and has no "(" |
| PyAnalyzer.MethodTags | src/analyzers/python/analyzer.rs:481-487 | every picked method is tagged as a class method, and as a dunder method exactly when its name starts and ends with two underscores |
| PyAnalyzer.MethodAt | src/analyzers/python/analyzer.rs:477-483 | the record read from a header line has its name and async flag, starts at that line, ends at the block end, and carries the method tags |
| PyAnalyzer.Collect | src/analyzers/python/analyzer.rs:470-492 | every record collected comes from a header line inside the range, and the records are in strictly increasing line order |
| PyAnalyzer.CollectComplete | src/analyzers/python/analyzer.rs:470-492 | every header line inside the range is collected |
| PyAnalyzer.IsMethodAtMeans | src/analyzers/python/analyzer.rs:475-483 | a record found at a line is read from a header on that line, named and tagged after it, and ends where the indented block does |
| PyAnalyzer.ExtractClassMethods | src/analyzers/python/analyzer.rs:464-495 | every method lies between the class start and the smaller of the class end and the file length, is read from a header on its line, and the methods are in line order |
| PyAnalyzer.ExtractFindsEveryHeader | src/analyzers/python/analyzer.rs:470-492 | every "def" or "async def" header with a name between the class start and end is extracted |
| PyAnalyzer.ExtractedMethodTags | src/analyzers/python/analyzer.rs:481-487 | every extracted method is tagged as a class method, and as a dunder method exactly when its name is a dunder name |
| PyAnalyzer.BuildAstFromAnalysis | src/analyzers/python/analyzer.rs:733-763 | a file root holding one class scope per class, placed by its "class" line, then one Function leaf per function not tagged "is_class_method", placed by its "def" line |
| PyAnalyzer.LineStatistics | src/analyzers/python/analyzer.rs:530-545 | lines are counted once each as empty, comment (starting "#") or code, adding up to the line total |
| JsAnalyzer.Merge | src/analyzers/javascript/analyzer.rs:27-33 | each list of the second set of constructs goes after the same list of the first, with nothing lost or reordered |
| JsAnalyzer.MergeMeaningful | src/analyzers/javascript/analyzer.rs:27-37 | a merge has meaningful content (some function or class) exactly when either side had |
| JsAnalyzer.MergeLaws | src/analyzers/javascript/analyzer.rs:27-37 | merging is associative with the empty constructs as unit on both sides, and the empty constructs are not meaningful |
| JsAnalyzer.KeywordsNonEmpty | src/analyzers/javascript/analyzer.rs:449-453 | the JavaScript table has 16 keywords, none empty |
| JsAnalyzer.CalculateComplexity | src/analyzers/javascript/analyzer.rs:445-483 | cyclomatic is one plus every keyword occurrence, one iff no keyword occurs; the depth is the peak brace depth, attained and bounding; rated |
| JsAnalyzer.FindLineNumber | src/analyzers/javascript/analyzer.rs:566-573 | the first line holding both the construct and the name, untrimmed; None iff there is none |
| JsAnalyzer.FindMethodLineNumber | src/analyzers/javascript/analyzer.rs:576-587 | the first line between the class start (saturating) and the smaller of the class end and the file length that mentions the name and "(" and is not a line comment; None iff there is none |
| JsAnalyzer.MethodLineInsideClass | src/analyzers/javascript/analyzer.rs:576-587 | a method line found lies within the class's line range |
| JsAnalyzer.ScanLine | src/analyzers/javascript/analyzer.rs:597-612 | the per-line brace scan either closes just past a char of the line or leaves a consistent depth for the next line |
| JsAnalyzer.ScanLineInText | src/analyzers/javascript/analyzer.rs:597-612 | scanning a line inside longer text takes the same steps as the whole-text brace scan |
| JsAnalyzer.EndLineAgrees | src/analyzers/javascript/analyzer.rs:590-612 | the line-by-line scan finds an end line exactly when the brace scan of the glued text closes, and in the line holding that offset |
| JsAnalyzer.FunctionEndLine | src/analyzers/javascript/analyzer.rs:590-616 | the end line is within the file, or the fallback start+10; it exceeds start+10 only when a closing brace was found |
| JsAnalyzer.FunctionEndLineSpec | src/analyzers/javascript/analyzer.rs:590-616 | without a closing brace the end is start+10 cut at the file length; with one, it is the line holding the "}" where the first block opened from the start line closes |
| JsAnalyzer.ClassEndLineAsWritten | src/analyzers/javascript/analyzer.rs:619-629 | as written: the function end line, unless it equals start+10, in which case start+50 cut at the file length |
| JsAnalyzer.ClassEndLine | src/analyzers/javascript/analyzer.rs:619-629 | the corrected class end stays within the file |
| JsAnalyzer.ClassEndLineFixed | src/analyzers/javascript/analyzer.rs:619-629 | the corrected class end is the brace end whenever a block closes and start+50 cut at the file length otherwise; it differs from the code as written only when the brace end is exactly start+10 |
| JsAnalyzer.BraceFreeLine | src/analyzers/javascript/analyzer.rs:600-611 | a line without braces leaves the scan state unchanged |
| JsAnalyzer.SkipBraceFree | src/analyzers/javascript/analyzer.rs:596-612 | brace-free lines are skipped by the line scan |
| JsAnalyzer.ClassEndMistakenForFallback | src/analyzers/javascript/analyzer.rs:619-629 | a class opened on line 1 and closed on line 11 of a file of at least 51 lines: the brace end is 11, the corrected end 11, the code as written reports 51 |
| JsAnalyzer.LineStatistics | src/analyzers/javascript/analyzer.rs:648-659 | lines are counted once each as empty, comment (starting "//", the block-comment opener or "*") or code, adding up to the line total |
| Sessions.Combine | src/core/session.rs:152-172 | the merge loop raises the has-data flag exactly when some file carries AST statistics |
| Sessions.CombinedAstStats | src/core/session.rs:152-179 | the combined statistics are None exactly when no file of the session carries AST statistics |
| Sessions.CombinedAstStatsSpec | src/core/session.rs:156-172 | the combined node, class, function, method, variable and control-structure counts are the sums over the files with statistics, the per-type counts their multiset sum, and the depth the largest file depth |
| Sessions.SessionStatsSpec | src/core/session.rs:341-386 | every session total (files, lines, code lines, functions, classes) is the sum of the per-file values, and the language count holds each file once under its language |
| Sessions.FunctionComplexity | src/core/session.rs:401-406 | every function gets a complexity of at least one |
| Sessions.SessionComplexity | src/core/session.rs:389-452 | every function of every file lands in exactly one bucket of the distribution; the total complexity is at least one per function and at most that plus the session's control structures |
| Sessions.SessionComplexitySpec | src/core/session.rs:399-426 | the total complexity is the sum over files of the function count times the file's function complexity, and each bucket holds the functions of exactly the files whose function complexity falls in that bucket's range |
| Sessions.SearchSpec | src/core/session.rs:570-584 | the tree search returns exactly the pre-order nodes with a non-empty name containing the term, in pre-order |
| Sessions.FindSessionSymbols | src/core/session.rs:509-567 | the term is reported as given, the total equals the number of matches, and the matches are those of each file in turn under the lowercased term |
| Sessions.FileMatchesSpec | src/core/session.rs:514-557 | the matches of one file are its matching classes, then its matching functions, then its matching tree nodes, each in source order |
| Sessions.MatchesContainTerm | src/core/session.rs:509-557 | every reported match carries a name that contains the term ignoring ASCII case |
| Sessions.Dfs | src/core/session.rs:628-653 | the search visits the start file, keeps the stack inside the visited set, leaves the stack as it found it when no cycle is found, and a reported pair closes a walk back to the start or to a file left stale on the stack |
| Sessions.FindCycles | src/core/session.rs:606-615 | on an acyclic graph with an empty starting stack no cycle is reported |
| Sessions.FreshEvidenceIsCycle | src/core/session.rs:639-647 | evidence found with no stale stack entries proves the graph has a cycle |
| Sessions.IncludeCycles | src/core/session.rs:587-625 | an acyclic include graph reports no cycles |
| Sessions.StaleFirstSearch | src/core/session.rs:628-653 | the search from A reports [B, A] and returns with A and B still on the stack |
| Sessions.StaleThirdSearch | src/core/session.rs:628-653 | the later search from C meets B still on the stack and reports [C, B] |
| Sessions.WalkStaysInCycle | src/core/session.rs:628-653 | in the example graph no walk from A or B reaches C |
| Sessions.StaleStackReportsNonCycle | src/core/session.rs:608-614 | with key order A, B, C the code as written reports [C, B] although no walk leads from B back to C |
| Sessions.FindCyclesFixed | src/core/session.rs:608-614 | with the stack cleared before each outer search, every reported pair is evidence of a real cycle |
| Sessions.FixedReportsCycles | src/core/session.rs:628-653 | with a fresh stack each reported pair [a, b] has a depending directly on b and b reaching a |
| Sessions.JoinPath | src/core/session.rs:668 | joining an absolute path gives that path, and the result always ends with the joined part |
| Sessions.ResolveImport | src/core/session.rs:656-785 | an import resolves only when the importing file has a parent; angle-bracket includes never resolve; a Go, JavaScript or TypeScript import resolves exactly when it is relative; languages without a branch never resolve |
| Sessions.IncludePath | src/core/session.rs:721-740 | an include is skipped exactly when it starts with an angle bracket, and a quoted include is joined without its quotes |
| Sessions.PythonRelative | src/core/session.rs:699-707 | a relative Python import always resolves, to a ".py" path whose module part has no dots left |
| Sessions.ReplaceRemoves | src/core/session.rs:704 | replacing a character by text without it leaves none of it |
| Sessions.ShouldExcludePath | src/core/session.rs:985-995 | a path is excluded exactly when some excluded pattern occurs in its text |
| Sessions.UnderTestsIsTest | src/core/session.rs:998-1019 | every file below a "tests" directory is a test file |
| Sessions.SessionCommand | src/core/session.rs:787-816 | an unknown session is an error before the command is read; the dispatch succeeds exactly for a known session and one of the five commands; "find" takes the first argument or the empty term |
| CoreSession.NewSessionInfo | nekocode-workspace/nekocode-core/src/session.rs:42-60 | a new session is empty, consistent and clean, with all three timestamps set to the creation time |
| CoreSession.UpdateStats | nekocode-workspace/nekocode-core/src/session.rs:63-78 | the file count, line total and language count are recomputed consistently from the results (the language count holds one entry per file), the session is marked dirty, and nothing else changes |
| CoreSession.Touch | nekocode-workspace/nekocode-core/src/session.rs:156-159 | touching changes only the access time and the dirty flag |
| CoreSession.AddAnalysisResult | nekocode-workspace/nekocode-core/src/session.rs:162-173 | the result is appended last, its hash (if any) becomes the stored hash of its path and no other hash changes, and the counts stay consistent |
| CoreSession.AddCountsOneMore | nekocode-workspace/nekocode-core/src/session.rs:162-173 | on a consistent session adding a result counts exactly one more file, its lines, and its language once more |
| CoreSession.HasFileChanged | nekocode-workspace/nekocode-core/src/session.rs:184-189 | a file counts as changed exactly when no hash is stored for its path or the stored hash differs |
| CoreSession.AddedFileUnchanged | nekocode-workspace/nekocode-core/src/session.rs:162-189 | after adding a result with hash h, its path is unchanged for h and changed for every other hash |
| CoreSession.RemoveFile | nekocode-workspace/nekocode-core/src/session.rs:192-196 | the results of other paths stay in order, none for the path remains, its hash is forgotten, and the counts stay consistent |
| CoreSession.RemoveUndoesAdd | nekocode-workspace/nekocode-core/src/session.rs:162-196 | removing a path that was just added to a session without it gives back the original results and hashes |
| CoreSession.Clear | nekocode-workspace/nekocode-core/src/session.rs:199-203 | clearing leaves no results and no hashes with zero counts, keeping the identity and metadata |
| CoreSession.FilesByLanguage | nekocode-workspace/nekocode-core/src/session.rs:176-181 | the files of a language are exactly the results of that language, in order |
| CoreSession.FilesByLanguageCount | nekocode-workspace/nekocode-core/src/session.rs:64-73 | on a consistent session the number of files of a language equals that language's count |
| Incremental.HasChanged | nekocode-workspace/nekoinc/src/incremental.rs:63-67 | two metadata records differ exactly when they differ outside the recorded path, in either direction |
| Incremental.DetectChanges | nekocode-workspace/nekoinc/src/incremental.rs:147-212 | every change is classified correctly (added when new, modified when the metadata changed, deleted when gone), a path is reported exactly when it is new, gone or changed, no path twice, and the cache becomes the scan |
| Incremental.ScanCurrent | nekocode-workspace/nekoinc/src/incremental.rs:170-194 | the first loop reports, once each, exactly the paths of the scan that are new or changed |
| Incremental.ScanCache | nekocode-workspace/nekoinc/src/incremental.rs:196-206 | the second loop adds a deletion for exactly the cached paths missing from the scan, keeping paths distinct |
| Incremental.NoChangesIff | nekocode-workspace/nekoinc/src/incremental.rs:147-212 | nothing is reported exactly when the scan has the cached paths with unchanged metadata, so a second detection over an unchanged tree reports nothing |
| Incremental.DetectedCounts | nekocode-workspace/nekoinc/src/incremental.rs:147-212 | there are as many added changes as new paths, deleted changes as vanished paths, and modified changes as kept paths whose metadata changed |
| Incremental.SourceExtensionIffKnown | nekocode-workspace/nekoinc/src/incremental.rs:216-231 | a tracked extension is exactly one the workspace language table knows, apart from the "h++" and "c++" spellings |
| Incremental.NewSummary | nekocode-workspace/nekoinc/src/incremental.rs:268-298 | the summary counts each change type exactly, the three counts add up to the number of changes, and the speedup is one exactly when no time was measured |
| Incremental.FormatSummary | nekocode-workspace/nekoinc/src/incremental.rs:301-316 | the text has exactly three lines, the first reporting modified plus added files and the last ending with the total file count |
| Incremental.ThreeLines | nekocode-workspace/nekoinc/src/incremental.rs:301-316 | three newline-free lines joined by newlines split back into the same three lines |
| Incremental.AnalyzeChanges | nekocode-workspace/nekoinc/src/incremental.rs:347-403 | the session's detector is created on first use from the initial scan, its cache becomes the current scan, and the summary counts new, vanished and changed paths with a speedup of 50 ms per file over the elapsed time |
| Incremental.SecondScanQuiet | src/core/incremental.rs:150-215 | the detector keeps the scan as its cache, so a second detection over an unchanged tree reports nothing |
| Incremental.OnlyPath | src/core/incremental.rs:177-209 | when a single path is all either side holds and it must be reported, the detection is exactly one change for it |
| Incremental.SingleFileLifecycle | src/core/incremental.rs:340-369 | a file added, then modified, then deleted is reported once each time, as Added, Modified and Deleted, with the metadata on either side |
| Incremental.PlainLines | src/core/incremental.rs:304-317 | without markers the three lines read "Updated N files in Tms (Sx speedup)", "Changes: M modified, A added, D deleted" and "Total files in session: F" |
| Incremental.PlainSummaryLines | src/core/incremental.rs:304-317 | the analysis engine's summary splits into exactly those three lines |
| Incremental.SummaryExample | src/core/incremental.rs:372-396 | one Modified and one Added change over a hundred files give one changed, one added, none deleted, and a speedup of thirty seconds over one |
| Preview.LineMatches | src/core/preview.rs:405-416 | every match of a line carries the line number, the line, the pattern, and a column span exactly the pattern's length |
| Preview.LineMatchesArePositions | src/core/preview.rs:405-416 | the matches of a line start exactly at the non-overlapping occurrences of the pattern, left to right |
| Preview.LineMatchSpec | src/core/preview.rs:405-416 | a line yields one match per non-overlapping occurrence, each at an occurrence, and consecutive matches do not overlap |
| Preview.FindMatches | src/core/preview.rs:401-420 | the search fails to return exactly when the pattern is empty and the text has a line (the loop never advances) |
| Preview.AllLineMatchesCount | src/core/preview.rs:404-417 | the number of matches is the sum over the lines of their occurrence counts |
| Preview.CountOfJoin | src/core/preview.rs:404-417 | text joined with a separator outside the pattern holds as many occurrences as its pieces together |
| Preview.StripCRCount | src/core/preview.rs:404 | dropping a trailing carriage return keeps the count of a pattern without one |
| Preview.LinesCountAsPieces | src/core/preview.rs:404 | the lines of a text hold as many occurrences as its newline-separated pieces |
| Preview.MatchCountIsReplaceCount | src/core/preview.rs:174-191 | for a pattern without line breaks the preview lists exactly as many matches as the whole-text replace on confirmation replaces |
| Preview.NewEntry | src/core/preview.rs:66-77 | a new preview entry carries its operation and creation time and is not confirmed |
| Preview.MoveLinesSlice | src/core/preview.rs:214-224 | a start of 0 or past the last line is an error; otherwise the captured block is the lines from the start, as many as the count allows before the end |
| Preview.CreateMoveLinesPreview | src/core/preview.rs:210-241 | the preview succeeds exactly when the source exists and the start names a line, and captures the slice above |
| Preview.InsertIndex | src/core/preview.rs:319-323 | an insert lands before the given 1-based line, and at the end for position 0 or past the last line |
| Preview.InsertLine | src/core/preview.rs:325 | inserting one line keeps every line before and after it in place |
| Preview.InsertedLines | src/core/preview.rs:315-326 | after an insert the file holds all its lines in order plus the content at the insert index |
| Preview.InsertBlock | src/core/preview.rs:357-368 | the moved block goes in contiguously and in order at the insert index, and the destination's lines keep their order around it |
| Preview.CutBlock | src/core/preview.rs:334-347 | a start of 0 or more than one past the end fails; otherwise the cut block and the remaining lines split the source exactly, and the block is the preview's slice whenever the start names a line |
| Preview.Execute | src/core/preview.rs:306-399 | replace and insert succeed exactly when the file exists and write the replaced or inserted text; a move-class always succeeds, appends a line break and the class text to an existing target or creates the target with the class text, and leaves every other file unchanged; no file disappears |
| Preview.SameFileMoveKeepsLines | src/core/preview.rs:332-374 | moving lines within one file, when the staying lines read back unchanged, keeps the line count and reinserts the block |
| Preview.MoveAcrossFiles | src/core/preview.rs:332-374 | across files the source loses the block, the destination gains it at the insert index, and no other file changes |
| Preview.AddPreview | src/core/preview.rs:185-187 | registering a preview stores it under its id and touches no file |
| Preview.Confirm | src/core/preview.rs:281-304 | an unknown or already confirmed preview is an error; otherwise confirmation succeeds exactly when the operation executes, marks only that preview confirmed and writes the files the operation writes |
| Preview.ConfirmAtMostOnce | src/core/preview.rs:287-289 | confirming a preview a second time fails and changes nothing |
| Preview.ConfirmFramesOthers | src/core/preview.rs:297-300 | confirming leaves every other preview as it was |
| RefactorPreview.InsertAt | nekocode-workspace/nekorefactor/src/preview.rs:338-355 | the line loop puts the content just before the line whose index is the target, and nowhere when no line has that index |
| RefactorPreview.ApplyInsertLines | nekocode-workspace/nekorefactor/src/preview.rs:318-358 | Start prepends and End appends the content; a line position inserts it before the indexed line; the file either gains exactly one line or is unchanged |
| RefactorPreview.InsertPastEndDropped | nekocode-workspace/nekorefactor/src/preview.rs:338-346 | an insert at or after a line index past the end loses the content and leaves the lines unchanged |
| RefactorPreview.DeleteLines | nekocode-workspace/nekorefactor/src/preview.rs:431-450 | the lines kept are exactly those whose 1-based number lies outside the range, in order |
| RefactorPreview.DeleteUndoesInsert | nekocode-workspace/nekorefactor/src/preview.rs:338-450 | deleting the single line an insert added gives the original lines back |
| RefactorPreview.CutLines | nekocode-workspace/nekorefactor/src/preview.rs:381-399 | the cut fails exactly when the start is 0 or the block runs past the end; otherwise the block and the remaining lines are the two parts of the file |
| RefactorPreview.InsertBlock | nekocode-workspace/nekorefactor/src/preview.rs:413-421 | a zero insert line, or a non-empty block past the end, fails; otherwise the block lands contiguously at the insert line and the destination's lines keep their order around it |
| RefactorPreview.ApplyOperation | nekocode-workspace/nekorefactor/src/preview.rs:277-294 | each operation writes what it promises and fails exactly when its file is missing; MoveClass always fails with its message; a failed operation other than MoveLines writes nothing |
| RefactorPreview.ApplyInsert | nekocode-workspace/nekorefactor/src/preview.rs:318-363 | an insert succeeds exactly when the file exists and writes the inserted lines; a failure writes nothing |
| RefactorPreview.ApplyMoveLines | nekocode-workspace/nekorefactor/src/preview.rs:366-428 | an out-of-range block fails with nothing written; within one file only the cut is written; across files the source is rewritten first and the destination gains the block when the insert line fits, the source staying rewritten otherwise |
| RefactorPreview.Cleanup | nekocode-workspace/nekorefactor/src/preview.rs:460-466 | exactly the previews that are recent or neither confirmed nor applied are kept, unchanged |
| RefactorPreview.AddPreview | nekocode-workspace/nekorefactor/src/preview.rs:219-229 | the new entry is stored unconfirmed and unapplied under its id, pending previews survive, and below the limit of 100 nothing else changes |
| RefactorPreview.Confirm | nekocode-workspace/nekorefactor/src/preview.rs:242-252 | confirmation succeeds exactly for a known preview that is not applied, and marks only it confirmed |
| RefactorPreview.Apply | nekocode-workspace/nekorefactor/src/preview.rs:255-302 | only a confirmed, unapplied preview runs; it is marked applied only when its operation succeeds; a MoveClass preview never writes |
| RefactorPreview.AppliedIsFinal | nekocode-workspace/nekorefactor/src/preview.rs:242-267 | once applied a preview can be neither confirmed nor applied again |
| RefactorReplace.IsWordBoundary | nekocode-workspace/nekorefactor/src/replace.rs:177-197 | a span is a whole word exactly when neither the character before it nor the one after it is a word character |
| RefactorReplace.FindFrom | nekocode-workspace/nekorefactor/src/replace.rs:96 | a found offset is at or after the search start and holds an occurrence |
| RefactorReplace.FindFromFirst | nekocode-workspace/nekorefactor/src/replace.rs:96 | nothing occurs between the search start and the offset found, and nothing at all when none is found |
| RefactorReplace.FoundFirst | nekocode-workspace/nekorefactor/src/replace.rs:96-97 | the offset one search returns, taken in the whole line, is the first occurrence at or after the start |
| RefactorReplace.NextHitIsLeast | nekocode-workspace/nekorefactor/src/replace.rs:96-105 | nothing before the next accepted occurrence is accepted, and nothing at all when there is none |
| RefactorReplace.NextHitSkip | nekocode-workspace/nekorefactor/src/replace.rs:100-104 | skipping offsets that hold no accepted occurrence does not change the next one |
| RefactorReplace.HitsAreHits | nekocode-workspace/nekorefactor/src/replace.rs:96-116 | every reported offset holds an occurrence that passes the whole-word test when one is asked for |
| RefactorReplace.ScanIsHits | nekocode-workspace/nekorefactor/src/replace.rs:95-116 | the search loop reports exactly the accepted occurrences, each the first one after the previous match |
| RefactorReplace.SpansInside | nekocode-workspace/nekorefactor/src/replace.rs:95-116 | every reported span lies inside the text, none before the start, each ending before the next begins |
| RefactorReplace.HitsOrdered | nekocode-workspace/nekorefactor/src/replace.rs:95-116 | the reported offsets are accepted occurrences at or after the start, increasing and without overlap |
| RefactorReplace.LiteralLineMatches | nekocode-workspace/nekorefactor/src/replace.rs:88-117 | the matches of one line are one per accepted occurrence of the compared pattern in the compared line |
| RefactorReplace.ScanOffsets | nekocode-workspace/nekorefactor/src/replace.rs:95-116 | the loop computes the accepted-occurrence scan from offset 0 |
| RefactorReplace.FindAfter | nekocode-workspace/nekorefactor/src/replace.rs:96 | a search on the rest of the line is the first occurrence at or after the start, in the line's own offsets |
| RefactorReplace.WellFormedDetermined | nekocode-workspace/nekorefactor/src/replace.rs:107-113 | well-formed matches on a line are fixed by where they start |
| RefactorReplace.ScanIsLineMatches | nekocode-workspace/nekorefactor/src/replace.rs:95-116 | with case-sensitive, non-whole-word options the loop's offsets are those of the core preview's per-line search |
| RefactorReplace.DefaultsAgree | nekocode-workspace/nekorefactor/src/replace.rs:20-31 | with the default options the matches of a line are exactly those of the core preview's search |
| RefactorReplace.LinesResultWellFormed | nekocode-workspace/nekorefactor/src/replace.rs:88-117 | every match names a line of the text and is well formed on it |
| RefactorReplace.LinesResultDefaults | nekocode-workspace/nekorefactor/src/replace.rs:88-117 | with the default options the matches over all lines are the core preview's |
| RefactorReplace.FindLiteralMatches | nekocode-workspace/nekorefactor/src/replace.rs:76-118 | the search fails to return exactly when the pattern is empty and the text has a line; otherwise the matches are those of each line in turn |
| RefactorReplace.LinesLoop | nekocode-workspace/nekorefactor/src/replace.rs:88-117 | the loop over the lines gathers each line's matches, numbered from one |
| RefactorReplace.FindLiteralMatchesSpec | nekocode-workspace/nekorefactor/src/replace.rs:59-118 | the matches are well formed on lines of the text, and with the default options equal the core preview's find_matches |
| RefactorReplace.SpliceLength | nekocode-workspace/nekorefactor/src/replace.rs:306-314 | each replaced span changes the text length by the replacement's length minus the pattern's |
| RefactorReplace.ReplaceInsensitive | nekocode-workspace/nekorefactor/src/replace.rs:286-315 | an empty pattern never returns; otherwise the accepted occurrences in the lowered text are replaced in the original text and counted |
| RefactorReplace.ScanSpliceIsReplace | nekocode-workspace/nekorefactor/src/replace.rs:281-315 | without whole-word matching, splicing the loop's spans is the standard whole-text replace |
| RefactorReplace.ScanCountsPositions | nekocode-workspace/nekorefactor/src/replace.rs:281-315 | without whole-word matching the loop finds as many occurrences as the standard match count |
| RefactorReplace.ReplaceLiteral | nekocode-workspace/nekorefactor/src/replace.rs:275-317 | the case-sensitive branch is split-and-join, counting the occurrences whatever the whole-word option says, and the identity replacement changes nothing; the case-insensitive branch fails only for the empty pattern and replaces the accepted lowered occurrences |
| RefactorReplace.BranchesAgreeOnLowercase | nekocode-workspace/nekorefactor/src/replace.rs:281-315 | on text and a pattern without capitals, and without whole-word matching, both branches give the same text and count |
| RefactorReplace.ReplaceInFile | nekocode-workspace/nekorefactor/src/replace.rs:241-258 | a missing file is an error; nothing is written when nothing is replaced; a case-sensitive replacement writes exactly the replaced text and reports the occurrence count; a case-insensitive one fails exactly for an empty pattern, otherwise writes the text with every accepted occurrence of the lowered pattern in the lowered text replaced, and reports how many there were |
| RefactorReplace.ByteToLineCol | nekocode-workspace/nekorefactor/src/replace.rs:200-221 | the line is one plus the line breaks before the position, and the column one plus the distance from the last line start |
| RefactorReplace.LineColAfterBreak | nekocode-workspace/nekorefactor/src/replace.rs:205-218 | an offset just after a line break is on the next line, at the column its distance from the break gives |
| RefactorCli.ParseInsertPosition | nekocode-workspace/nekorefactor/src/main.rs:259-279 | a malformed number after "after:" or "before:" is reported with the lowercased argument, any other rejected argument with the argument as given, and every parsed line number fits in 32 bits |
| RefactorCli.LetterNotNumber | nekocode-workspace/nekorefactor/src/main.rs:264 | text starting with a letter never parses as a line number |
| RefactorCli.ParseSound | nekocode-workspace/nekorefactor/src/main.rs:259-279 | whatever the parser accepts is a spelling of the position it returns |
| RefactorCli.ParseComplete | nekocode-workspace/nekorefactor/src/main.rs:259-279 | every spelling of a position parses to that position |
| RefactorCli.ParseIgnoresCase | nekocode-workspace/nekorefactor/src/main.rs:260 | two arguments equal up to ASCII case both fail or parse to the same position |
| RefactorCli.ParseRendered | nekocode-workspace/nekorefactor/src/main.rs:259-279 | writing a position and parsing it back gives it back, also with the keyword or prefix in capitals |
| RefactorCli.MoveLinesSelection | nekocode-workspace/nekorefactor/src/main.rs:80-98 | the selection fails exactly when the start is 0 or the range runs past the end, and otherwise captures exactly the requested number of lines |
| RefactorCli.SelectionReassembles | nekocode-workspace/nekorefactor/src/main.rs:80-98 | the captured block put back between the lines before it and the lines the later move keeps is the file again |
| MoveSymbol.TakenAboveRun | nekocode-workspace/nekorefactor/src/moveclass.rs:148-155 | the backward scan takes exactly the taken elements of a run of taken and skipped elements that starts at the top or right below an element that stops it |
| MoveSymbol.CollectLeadingComments | nekocode-workspace/nekorefactor/src/moveclass.rs:146-156 | the backward loop inserts each comment line in front of those already taken, giving the leading comments of the symbol |
| MoveSymbol.ScanAbove | nekocode-workspace/nekorefactor/src/moveclass.rs:148-155 | walking up, a taken element goes in front, a skipped one is passed over, and the first other element stops the scan |
| MoveSymbol.LeadingCommentsSpec | nekocode-workspace/nekorefactor/src/moveclass.rs:146-156 | the comments kept are exactly the comment lines of the run of comment and blank lines directly above the symbol |
| MoveSymbol.ExtractedLines | nekocode-workspace/nekorefactor/src/moveclass.rs:123-161 | extraction fails exactly when the symbol's range runs past the end or is reversed, and otherwise ends with the symbol's own lines |
| MoveSymbol.ExtractedLinesSpec | nekocode-workspace/nekorefactor/src/moveclass.rs:141-158 | what precedes the symbol's lines is comment lines taken in order from above it, and nothing when comments are not preserved |
| MoveSymbol.KeepOutside | nekocode-workspace/nekorefactor/src/moveclass.rs:195-199 | the removal loop keeps exactly the lines outside the symbol's range, in order |
| MoveSymbol.RemovedAndExtractedReassemble | nekocode-workspace/nekorefactor/src/moveclass.rs:123-199 | the lines removal keeps, split where the symbol was and with the extracted block put back, are the file again |
| MoveSymbol.CollapseNoDouble | nekocode-workspace/nekorefactor/src/moveclass.rs:361-379 | collapsing never leaves two blank elements in a row |
| MoveSymbol.CollapseKeeps | nekocode-workspace/nekorefactor/src/moveclass.rs:361-379 | only blank elements are dropped, so every non-blank element survives in order |
| MoveSymbol.CollapseIsSubseq | nekocode-workspace/nekorefactor/src/moveclass.rs:361-379 | collapsing only deletes elements |
| MoveSymbol.CollapseIdentity | nekocode-workspace/nekorefactor/src/moveclass.rs:361-379 | input without blank runs comes back unchanged |
| MoveSymbol.CollapseBlankRuns | nekocode-workspace/nekorefactor/src/moveclass.rs:366-376 | the loop of remove_extra_blank_lines computes the collapsed lines |
| MoveSymbol.CollapseBlanksSpec | nekocode-workspace/nekorefactor/src/moveclass.rs:361-379 | after collapsing no two blank lines are neighbours, every line with text survives in order, nothing is added, and a second pass changes nothing |
| MoveSymbol.RemoveExtraBlankLinesIdempotent | nekocode-workspace/nekorefactor/src/moveclass.rs:361-379 | on text whose collapsed lines survive a write and re-read, removing extra blank lines twice is removing them once |
| MoveSymbol.FindInsertionPoint | nekocode-workspace/nekorefactor/src/moveclass.rs:288-336 | the insertion point is the length of the longest run of header lines at the top of the file, by the language's header test |
| MoveSymbol.HeaderNamesFile | nekocode-workspace/nekorefactor/src/moveclass.rs:259-285 | the header is empty exactly for a language without a template, and every template names the file |
| MoveSymbol.AddedContentSpec | nekocode-workspace/nekorefactor/src/moveclass.rs:238-250 | the corrected insertion appends after a blank line when the whole file is header, and otherwise puts the symbol as a line of its own right after the header |
| MoveSymbol.AddedContentAsWrittenSpec | nekocode-workspace/nekorefactor/src/moveclass.rs:238-250 | as written, the symbol is appended after a blank line only when the header line count equals the file's length in characters, and otherwise inserted as a line at the header end |
| MoveSymbol.AsWrittenSkipsBlankLine | nekocode-workspace/nekorefactor/src/moveclass.rs:242-249 | for a one-line Rust target "use a;" the code as written joins the symbol on the next line with no blank line, where the corrected step leaves one |
| MoveSymbol.OneUseLine | nekocode-workspace/nekorefactor/src/moveclass.rs:295-304 | "use a;" is a one-line Rust file whose header is that line |
| MoveSymbol.AddSymbolToFile | nekocode-workspace/nekorefactor/src/moveclass.rs:212-256 | a missing target is an error exactly when creating is off; a created target holds the header, a blank line and the symbol; an existing target gets the symbol at its insertion point; no other file changes |
| MoveSymbol.FindSymbolInSession | nekocode-workspace/nekorefactor/src/moveclass.rs:105-120 | the symbol found is the first with the id, results in order and symbols in order within each; "Symbol not found" exactly when none has the id |
| MoveSymbol.FindInTail | nekocode-workspace/nekorefactor/src/moveclass.rs:109-115 | when the first result has no symbol with the id, the search over the rest answers for the whole session |
| MoveSymbol.Prepare | nekocode-workspace/nekorefactor/src/moveclass.rs:58-73 | the checks succeed exactly when the symbol is found, its file exists, its range is in bounds and the target exists or may be created, and the text moved is the joined extracted lines |
| MoveSymbol.Perform | nekocode-workspace/nekorefactor/src/moveclass.rs:164-178 | a move fails exactly when the target is missing and may not be created; it writes the source without the symbol and the target with it, and nothing else; a move into the symbol's own file inserts the symbol into that file's text without it |
| MoveSymbol.MoveDryRunWritesNothing | nekocode-workspace/nekorefactor/src/moveclass.rs:86-89 | a dry run writes nothing and reports success with no imports updated |
| MoveSymbol.MoveDryRunAgrees | nekocode-workspace/nekorefactor/src/moveclass.rs:52-102 | the dry run succeeds exactly when the real move would, which is exactly when the checks pass |
| MoveSymbol.MoveWritesOnlyEnds | nekocode-workspace/nekorefactor/src/moveclass.rs:52-102 | a real move writes only the source and the target, the target then exists, the source loses the symbol's lines and the target gains its text; a move into the symbol's own file re-inserts the text into the file without the symbol |
| MoveSymbol.LinesMovedCount | nekocode-workspace/nekorefactor/src/moveclass.rs:81 | the reported line count is the number of extracted lines when those survive being joined and read back |
| CoreImpact.AssessRiskLevel | src/core/impact.rs:649-665 | a symbol is High exactly when it is a referenced removal, a breaking change or has more than ten references; Medium exactly when otherwise it has more than three references or a changed signature; Low otherwise |
| CoreImpact.RiskMonotoneInReferences | src/core/impact.rs:649-665 | more references never lower a symbol's risk |
| CoreImpact.RiskExamples | src/core/impact.rs:1449-1492 | an unreferenced, non-breaking modification is Low and a referenced breaking signature change is High |
| CoreImpact.CalculateOverallRisk | src/core/impact.rs:688-703 | the overall risk is the highest risk of any symbol, and Low when there are none |
| CoreImpact.IdentifyAffectedFiles | src/core/impact.rs:668-679 | a file is affected exactly when it holds a changed symbol or a reference to one |
| CoreImpact.CountTotals | src/core/impact.rs:232-237 | the breaking count and the reference total are the true counts narrowed to 32 bits, and there are no more breaking symbols than symbols |
| CoreImpact.FormatFunctionSignature | src/core/impact.rs:725-728 | a signature starts with the name and an opening parenthesis and ends with a closing one |
| CoreImpact.SignatureName | src/core/impact.rs:725-728 | the name is what precedes the first parenthesis of the signature, when the name has none |
| CoreImpact.BreakingIsChanged | src/core/impact.rs:289-304 | every function judged breaking is also judged changed |
| CoreImpact.FunctionChanges | src/core/impact.rs:286-323 | every function symbol reported for a file comes from one of its functions, and every function that looks changed is reported |
| CoreImpact.ClassChanges | src/core/impact.rs:326-351 | the class symbols reported for a file come from its classes, and every class that looks changed is reported |
| CoreImpact.ChangesIn | src/core/impact.rs:284-352 | every function and class that looks changed is reported, and every reported symbol comes from a file |
| CoreImpact.DetectChangedSymbols | src/core/impact.rs:271-363 | the report holds only symbols of the directory and every class that looks changed; a symbol is an added function exactly when it is a function whose name contains "new" |
| CoreImpact.DetectedFunctions | src/core/impact.rs:274-323 | a function that looks changed, with usage counted over all calls, is reported, and it is reported breaking exactly when judged breaking |
| CoreImpact.RefsInFile | src/core/impact.rs:564-642 | every reference of a file is an allowed reference to the symbol in that file, and every matching call yields its call reference |
| CoreImpact.CallRefsComplete | src/core/impact.rs:566-576 | every matching call yields its call reference |
| CoreImpact.FindSymbolReferences | src/core/impact.rs:560-646 | every reference lies in some file and is allowed for the symbol, and every matching call in every file is referenced |
| CoreImpact.NoClassRefsForFunctions | src/core/impact.rs:614-642 | a symbol that is not a class is referenced only as a call, import, export or definition |
| CoreImpact.NameDiff | src/core/impact.rs:815-836 | the deleted functions are those of the base whose name the current version lacks, and the added ones symmetrically, each in order |
| CoreImpact.NameDiffMembers | src/core/impact.rs:815-836 | a function is deleted exactly when it is in the base and its name is gone from the current version, and added symmetrically |
| CoreImpact.NameDiffSelf | src/core/impact.rs:815-836 | a version compared with itself has nothing deleted and nothing added |
| NekoImpact.RiskText | nekocode-workspace/nekoimpact/src/impact.rs:33-39 | every risk level is named Low, Medium or High |
| NekoImpact.RiskTextsDistinct | nekocode-workspace/nekoimpact/src/impact.rs:25-39 | two levels share a name, or an emoji, exactly when they are the same level |
| NekoImpact.FromChangeCount | nekocode-workspace/nekoimpact/src/impact.rs:41-47 | up to two changes is Low, three to ten Medium, more High |
| NekoImpact.FromChangeCountMonotone | nekocode-workspace/nekoimpact/src/impact.rs:41-47 | more changes never give a lower risk |
| NekoImpact.IsBreaking | nekocode-workspace/nekoimpact/src/impact.rs:85-92 | a change breaks callers exactly when it is not an addition or a plain modification |
| NekoImpact.ChangeTypeTextInjective | nekocode-workspace/nekoimpact/src/impact.rs:72-83 | two change types share a text exactly when they are the same type |
| NekoImpact.FunctionSignature | nekocode-workspace/nekoimpact/src/impact.rs:440-459 | a signature starts with the name and an opening parenthesis and ends with the closing one and the return suffix |
| NekoImpact.SignatureSeesReturnType | nekocode-workspace/nekoimpact/src/impact.rs:440-459 | two functions differing only in their return type have different signatures |
| NekoImpact.CollectByKey | nekocode-workspace/nekoimpact/src/impact.rs:370-378 | collecting into a map keyed by name maps every key of the list, and only to an element carrying that key |
| NekoImpact.CollectLastWins | nekocode-workspace/nekoimpact/src/impact.rs:370-378 | when keys repeat the last element wins |
| NekoImpact.LastByKey | nekocode-workspace/nekoimpact/src/impact.rs:381-399 | the map's values, each once, with distinct keys: exactly what a walk over the map visits |
| NekoImpact.RemovalsExplained | nekocode-workspace/nekoimpact/src/impact.rs:380-396 | each removal names a base function the head lacks |
| NekoImpact.HeadChangesExplained | nekocode-workspace/nekoimpact/src/impact.rs:398-434 | each head entry is an addition or a signature change the two snapshots bear out |
| NekoImpact.RemovalsComplete | nekocode-workspace/nekoimpact/src/impact.rs:380-396 | every base name the head lacks has its removal |
| NekoImpact.HeadChangesComplete | nekocode-workspace/nekoimpact/src/impact.rs:398-434 | every head name that is new or whose signature changed has its entry |
| NekoImpact.CompareFileSpec | nekocode-workspace/nekoimpact/src/impact.rs:362-437 | every entry of a file comparison is explained by the snapshots, and every name only in the base, only in the head, or in both with different signatures has its entry |
| NekoImpact.CompareFileSelf | nekocode-workspace/nekoimpact/src/impact.rs:362-437 | a file compared with itself has no changes |
| NekoImpact.CompareFileBreaking | nekocode-workspace/nekoimpact/src/impact.rs:383-432 | an entry is breaking exactly when it is not an addition, in agreement with the change type's own test |
| NekoImpact.CompareFileSwap | nekocode-workspace/nekoimpact/src/impact.rs:380-433 | swapping the snapshots turns each removal into an addition and back |
| NekoImpact.AssessRisk | nekocode-workspace/nekoimpact/src/impact.rs:484-529 | the risk counts partition the symbols; the rating is High exactly for more than five breaking changes or more than ten High symbols, Low exactly when there is no breaking change, no High symbol and at most five Medium ones; the recommendation follows the rating |
| NekoImpact.RiskCountsPartition | nekocode-workspace/nekoimpact/src/impact.rs:489-502 | every symbol has exactly one risk level |
| NekoImpact.AssessRiskMonotone | nekocode-workspace/nekoimpact/src/impact.rs:506-512 | more breaking changes for the same symbols never lower the rating |
| NekoImpact.CreateChangedSymbol | nekocode-workspace/nekoimpact/src/impact.rs:468-481 | the symbol carries the function's name, place and signature, no references, Low risk, and is breaking exactly when its change type is |
| NekoImpact.NoReferences | nekocode-workspace/nekoimpact/src/impact.rs:228-231 | symbols without references add up to no references |
| NekoImpact.ModifiedSymbols | nekocode-workspace/nekoimpact/src/impact.rs:204-223 | every entry gathered is a modification |
| NekoImpact.AnalyzeResultsInternal | nekocode-workspace/nekoimpact/src/impact.rs:198-243 | every file of the session is affected and no other, nothing is breaking, there are no references, the risk is Low with every symbol counted Low, and every symbol is a modification |
| NekoImpact.AnalyzeSessionReportsNothing | nekocode-workspace/nekoimpact/src/impact.rs:167-175 | with the placeholder change test the session analysis reports no changed symbol |
| NekoImpact.RemovedFilesCover | nekocode-workspace/nekoimpact/src/impact.rs:267-298 | a base file the head lacks has all its removals gathered and is affected |
| NekoImpact.HeadFilesCover | nekocode-workspace/nekoimpact/src/impact.rs:301-342 | a head file the base lacks has all its additions gathered and is affected, and a file both have has all its changes gathered |
| NekoImpact.CompareRemovedFile | nekocode-workspace/nekoimpact/src/impact.rs:266-298 | for a file only the base has, every function is reported removed with a breaking-change record, and the file is affected |
| NekoImpact.CompareAddedFile | nekocode-workspace/nekoimpact/src/impact.rs:322-341 | for a file only the head has, every function is reported added and the file is affected |
| NekoImpact.CompareCommonFile | nekocode-workspace/nekoimpact/src/impact.rs:302-318 | for a file both have, every entry of its comparison is reported, a breaking one with its record |
| NekoImpact.CompareRisk | nekocode-workspace/nekoimpact/src/impact.rs:344-349 | each breaking entry has one record, the High entries are exactly the breaking ones and none is Medium, so the rating is High above five breaking changes, Medium for one to five and Low for none |
| NekoImpact.AffectedWithin | nekocode-workspace/nekoimpact/src/impact.rs:246-359 | only files of the two snapshots are affected |
| NekoImpact.RemovedFilesSkip | nekocode-workspace/nekoimpact/src/impact.rs:267-268 | the first loop never marks a file the head has |
| NekoImpact.HeadFilesSkip | nekocode-workspace/nekoimpact/src/impact.rs:301-342 | the second loop marks only the files it visits |
| NekoImpact.HeadFileMarks | nekocode-workspace/nekoimpact/src/impact.rs:301-342 | one head file marks only its own path, and in the corrected loop a file both have is marked exactly by its own changes |
| NekoImpact.HeadFilesOwnChanges | nekocode-workspace/nekoimpact/src/impact.rs:301-342 | in the corrected loop a file both snapshots have is marked exactly when it was already marked or its own comparison reports a change |
| NekoImpact.FixedAffectedExactly | nekocode-workspace/nekoimpact/src/impact.rs:319-321 | with the correction, a file both snapshots have is affected exactly when its own comparison reports a change |
| NekoImpact.HeadFileStep | nekocode-workspace/nekoimpact/src/impact.rs:319-321 | one head file only adds to what was gathered, and as written it is marked once anything has been gathered |
| NekoImpact.HeadFilesMarkAfterChange | nekocode-workspace/nekoimpact/src/impact.rs:319-321 | as written, once anything has been gathered every later file both snapshots have is marked |
| NekoImpact.AsWrittenMarksCommonFiles | nekocode-workspace/nekoimpact/src/impact.rs:246-359 | as written, a file both snapshots have is marked affected whenever a removed file had a function, whether or not it changed |
| NekoImpact.UnchangedFileMarkedAffected | nekocode-workspace/nekoimpact/src/impact.rs:319-321 | a file identical in both snapshots, next to a removed file with a function, is affected as written and not with the correction |
| NekoImpact.CompareSnapshotsSelf | nekocode-workspace/nekoimpact/src/impact.rs:246-359 | a directory compared with itself has no changes, no breaking changes, no affected file, and Low risk |
| ImpactOptions.FormatName | nekocode-workspace/nekoimpact/src/analyzer.rs:69-76 | every canonical format name is lower case |
| ImpactOptions.ParseFormat | nekocode-workspace/nekoimpact/src/analyzer.rs:59-67 | text parses as a format exactly when, lowercased, it is one of the four names or the two short names |
| ImpactOptions.FormatRoundTrip | nekocode-workspace/nekoimpact/src/analyzer.rs:59-76 | printing a format and parsing the name gives it back |
| ImpactOptions.ParseThenName | nekocode-workspace/nekoimpact/src/analyzer.rs:59-76 | a parsed name prints back as the lowercased input, except that "github" and "md" print as their long names |
| ImpactOptions.ParseIgnoresCase | nekocode-workspace/nekoimpact/src/analyzer.rs:60 | parsing ignores case |
| ImpactOptions.ParseExamples | nekocode-workspace/nekoimpact/src/analyzer.rs:59-67 | "JSON" and "Md" parse, "html" and the empty text do not |
| ImpactOptions.DefaultOptions | nekocode-workspace/nekoimpact/src/analyzer.rs:34-47 | by default no sessions or target files are named, output is plain, references and risk are included, and output is quiet |
| Memory.TypeName | nekocode-workspace/nekocode-core/src/memory.rs:28-35 | every type name is lower case |
| Memory.ParseType | nekocode-workspace/nekocode-core/src/memory.rs:18-26 | text parses exactly when, lowercased, it is one of the four type names, and then parses to the type of that name |
| Memory.TypeRoundTrip | nekocode-workspace/nekocode-core/src/memory.rs:18-35 | a type's name parses back to it |
| Memory.ParseTypeExamples | nekocode-workspace/nekocode-core/src/memory.rs:18-26 | "MEMO" parses, "notes" does not |
| Memory.NewEntry | nekocode-workspace/nekocode-core/src/memory.rs:50-60 | a new entry carries its name, type and content, created and updated at the same time, with no metadata |
| Memory.Save | nekocode-workspace/nekocode-core/src/memory.rs:78-82 | the fresh entry is stored under its type and name, replacing any there, and every other key keeps its entry |
| Memory.Load | nekocode-workspace/nekocode-core/src/memory.rs:85-91 | loading succeeds exactly for a stored key and returns its entry; otherwise "Memory not found: type:name" |
| Memory.Delete | nekocode-workspace/nekocode-core/src/memory.rs:104-111 | deleting succeeds exactly for a stored key, removes only it, and fails with the not-found message otherwise |
| Memory.Clear | nekocode-workspace/nekocode-core/src/memory.rs:114-116 | clearing leaves no entry |
| Memory.SaveThenLoad | nekocode-workspace/nekocode-core/src/memory.rs:78-91 | what is saved loads back, and saving under one key leaves every other key's load unchanged |
| Memory.SaveThenDelete | nekocode-workspace/nekocode-core/src/memory.rs:78-111 | deleting what was just saved under a new key restores the store, and a second delete fails |
| Memory.ListByType | nekocode-workspace/nekocode-core/src/memory.rs:94-101 | the listing holds exactly the stored entries of the kind, or all of them for no kind |
| Memory.ListByTypeKinds | nekocode-workspace/nekocode-core/src/memory.rs:94-101 | listing every kind lists every entry, and each entry is listed under exactly its own kind |
| Memory.SortNewestFirst | nekocode-workspace/nekocode-core/src/memory.rs:125 | sorting yields the same entries newest first |
| Memory.Timeline | nekocode-workspace/nekocode-core/src/memory.rs:119-128 | the timeline is newest first and holds exactly the stored entries created no earlier than the cutoff |
| Memory.TimelineMembers | nekocode-workspace/nekocode-core/src/memory.rs:119-128 | an entry is on the timeline exactly when it is stored and was created no earlier than the cutoff |
| Memory.TimelineSameEntries | nekocode-workspace/nekocode-core/src/memory.rs:119-128 | whatever the hash order, the timeline holds the same entries |
| Memory.Stats | nekocode-workspace/nekocode-core/src/memory.rs:131-137 | a kind has a count exactly when some entry is of that kind, and the count is the number of such entries |
| Memory.StatOfIsCount | nekocode-workspace/nekocode-core/src/memory.rs:131-137 | a kind's count, zero when absent, is its number of entries |
| Memory.StatsTotal | nekocode-workspace/nekocode-core/src/memory.rs:131-137 | the counts add up to the number of entries |
| Memory.SaveCounts | nekocode-workspace/nekocode-core/src/memory.rs:78-137 | saving a note under a new key adds one to its kind's count |
| Watch.DefaultConfig | nekocode-workspace/nekoinc/src/watch.rs:42-79 | the default configuration waits half a second between updates, allows a thousand events a second, excludes seven patterns including `.git`, and watches twenty extensions including `js` and `rs` |
| Watch.ShouldWatchFile | nekocode-workspace/nekoinc/src/watch.rs:106-123 | a path is watched exactly when no exclude pattern occurs in its text and its lower-cased extension is a configured one; an excluded path or one without an extension never is |
| Watch.ExcludedOrBareRejected | nekocode-workspace/nekoinc/src/watch.rs:106-123 | any excluded pattern, or a missing extension, rejects the path whatever the rest |
| Watch.ExtensionCaseIgnored | nekocode-workspace/nekoinc/src/watch.rs:116-119 | with lower-case configured extensions, an extension is accepted exactly when its lower-case form is configured |
| Watch.DefaultExtensionsLower | nekocode-workspace/nekoinc/src/watch.rs:56-77 | every default extension is lower case, so upper-case file extensions are still watched |
| Watch.DefaultExtensionsKnown | nekocode-workspace/nekoinc/src/watch.rs:56-77 | every default extension names a language the analysis recognises |
| Watch.DefaultsNotExcluded | nekocode-workspace/nekoinc/src/watch.rs:47-55 | text built only from characters absent from the exclude patterns is never excluded by the defaults |
| Watch.PlainFileExtension | nekocode-workspace/nekoinc/src/watch.rs:116 | a plain name `stem.ext` has the extension `ext` |
| Watch.PlainFileWatched | nekocode-workspace/nekoinc/src/watch.rs:106-123 | a plain file name free of the exclude patterns is watched exactly when its lower-cased extension is a default one |
| Watch.SourceFilesWatched | src/commands/watch.rs:491-495 | `test.js`, `test.ts`, `test.py`, `test.rs` and `test.JS`, and the same names with any other plain stem, are watched |
| Watch.OtherFilesRejected | src/commands/watch.rs:502-504 | `test.txt` and `test.md` are not watched |
| Watch.ExcludedPrefix | src/commands/watch.rs:497-500 | a path that starts with an exclude pattern, such as `node_modules/test.js` or `.git/config`, is never watched |
| Watch.GlobIsLiteral | nekocode-workspace/nekoinc/src/watch.rs:52 | the pattern `*.tmp` is matched literally, so it does not exclude an ordinary `.tmp` file |
| Watch.WatchFilesDistinct | src/commands/watch.rs:92-100 | PID and lock files live under `/tmp`, never coincide, and each names exactly one session |
| Watch.StartWatch | nekocode-workspace/nekoinc/src/watch.rs:223-288 | starting succeeds exactly when the session exists, is not already watched and initialises, in that order of errors; it adds one watching entry with no files, leaving every other entry alone |
| Watch.StopWatch | nekocode-workspace/nekoinc/src/watch.rs:290-302 | stopping succeeds exactly for a watched session and removes only its entry; otherwise it fails as not watched |
| Watch.GetStatus | nekocode-workspace/nekoinc/src/watch.rs:304-308 | the status is present exactly for a watched session and is its entry |
| Watch.ListActive | nekocode-workspace/nekoinc/src/watch.rs:310-314 | the listing holds exactly the registered entries |
| Watch.StopAll | nekocode-workspace/nekoinc/src/watch.rs:316-322 | stopping all forgets every entry and counts how many there were |
| Watch.StartThenStop | nekocode-workspace/nekoinc/src/watch.rs:223-302 | stopping a session just started gives the previous registry back |
| Watch.StartTwiceFails | nekocode-workspace/nekoinc/src/watch.rs:223-237 | a started session reports watching, and a second start fails as already watched unless the session lookup fails first |
| Watch.StopTwiceFails | nekocode-workspace/nekoinc/src/watch.rs:290-302 | a second stop fails as not watched, and other sessions keep their status |

## Left out

- Strs.Lower: lowercases ASCII letters only; Rust's `to_lowercase` also folds non-ASCII letters, so case-insensitive search, symbol search and extension tests differ from the source on non-ASCII text.
- Strs.IsAlphanumeric: ASCII letters and digits only; Rust's `char::is_alphanumeric` is Unicode-aware, so RefactorReplace.IsWordBoundary treats "caf" inside "café" as a whole word where the source does not.
- RefactorReplace.ByteToLineCol: offsets and columns count characters, where the source counts UTF-8 bytes; the two agree on ASCII text only. The same holds for the match columns of Preview.FindMatches and RefactorReplace.FindLiteralMatches, and for the indentation width `Strs.LeadingWs` that the Python analyzer uses.
- MoveSymbol.AddedContentAsWritten: compares the line index with the character count of the target text, where the source compares it with its byte length; on ASCII text they agree.
- MoveSymbol.Move: compares the source and target paths as text, where Rust compares `Path` values by their components (so "a//b" and "a/b" are one path there and two here).
- RefactorPreview.ApplyOperation: the same-file test of a cross-file move compares paths as text, not by component.
- MoveSymbol.Move: the errors of reading and writing files (nekocode-workspace/nekorefactor/src/moveclass.rs:128, 186, 205, 235, 252) are not modelled, because a file here is a map entry that is either present or not. The failed session lookup at line 60 is also not modelled: the analysis results are given.
- RefactorReplace.ReplaceInFile: read and write errors of `replace_in_file` are not modelled, for the same reason.
- Incremental.AnalyzeChanges: the session lookup of `initialize_session` (nekocode-workspace/nekoinc/src/incremental.rs:333-335) can fail with a session error, and that error is not modelled. Neither is the I/O error of the initial scan. The session is assumed to exist, and its scans are given.
- NekoImpact.AnalyzeSessionReportsNothing: the session lookups of `analyze_session` and `compare_sessions` (nekocode-workspace/nekoimpact/src/impact.rs:167-195) are not modelled. Their errors are not modelled either. The analysis results are given.
- CoreTypes: line numbers, counts and sizes are naturals. The source keeps them as `u32`, `u64` or `usize`, which could overflow only on inputs far larger than any source file. Narrowing casts (`as u32`) are not modelled either.
- `has_function_changed` (nekocode-workspace/nekoimpact/src/impact.rs:462-465) always answers false in the source, and NekoImpact.HasFunctionChanged does too. As a result, a session analysis reports no modified functions.
- Import updating is a stub in the source and is not modelled beyond "nothing is updated". This covers `adjust_imports` (src/core/moveclass.rs:175-180) and `update_imports_for_move` (nekocode-workspace/nekorefactor/src/moveclass.rs:339-358).
- `detect_circular_dependencies` (src/core/impact.rs:682-685) returns an empty list in the source and is not modelled.
- Git-based impact analysis is not modelled, because it runs `git` subprocesses and re-analyses files written to temporary directories. This covers `get_changed_files_from_git`, `detect_deleted_symbols_from_git`, `analyze_functions_at_ref`, `analyze_file_at_git_ref`, `analyze_changed_files`, `detect_changed_symbols_in_files`, `analyze_current_state` and the `analyze_impact` orchestration (src/core/impact.rs:170-366, 731-1088).
- `calculate_complexity_change` (src/core/impact.rs:706-729) and the estimated speedup, averages and ratios are floating point. A speedup is kept as the pair of times it is computed from (Incremental.Speedup), and the printed one-decimal value is a parameter of Incremental.FormatSummary.
- The report formatters are not modelled. These are `format_plain`, `format_json` and `format_github_comment` (src/core/impact.rs:1096-1312), the `print_result` of the impact tool, and `dump_as_tree` and `dump_as_flat` (src/core/ast.rs:281-342). They are presentation only.
- The regular-expression paths are not modelled, because the regex crate is a foreign library: `find_regex_matches` and `replace_regex` (nekocode-workspace/nekorefactor/src/replace.rs:121-175, 320-339).
- The pest-grammar and regex extraction of every analyzer is not modelled, because the grammars are not part of this model and the regex crate is foreign. This covers `extract_functions`, `extract_classes`, `extract_imports`, the `parse_*` and `regex_fallback_*` functions, and `analyze` itself. The functions, classes and line finders that extraction produces are inputs here.
- The tree-sitter analyzers are not modelled, because they read parse trees from grammars outside this model. This covers `from_tree_sitter_node`, `build_from_tree` and `build_with_stats` (nekocode-workspace/nekocode/src/ast.rs:61-253).
- `update_line_numbers` (src/analyzers/python/analyzer.rs:401-515 and src/analyzers/javascript/analyzer.rs:537-631) is modelled through its parts: the line finders, block-end finders and method scans. The loops that write the found lines back into the extracted records are not modelled. `build_ast_recursive` and `build_fallback_ast` of the JavaScript analyzer (978-1063, 926-976) walk the pest parse tree and are not modelled.
- File discovery, reading, metadata, hashing and ids are not modelled, because they are I/O: `FileMetadata::from_path`, `calculate_hash` (both incremental.rs files), `FileProcessor::discover_files`, `read_file`, `calculate_hash` and `get_file_size` (nekocode-workspace/nekocode-core/src/io.rs:55-115), `discover_files` and `analyze_path`/`analyze_directory` (src/core/session.rs:836-1020), and UUIDs. Hashes, times and ids are parameters or opaque values.
- Session persistence is not modelled, because it is JSON files on disk. This covers loading, saving, listing, deleting and cleaning up sessions in src/core/session.rs:47-200 and nekocode-workspace/nekocode-core/src/session.rs:91-349, and the preview storage of src/core/preview.rs:143-171 and nekocode-workspace/nekorefactor/src/preview.rs:211-240.
- The session command handlers `handle_ast_stats`, `handle_ast_query`, `handle_scope_analysis`, `handle_ast_dump` and `calculate_session_structure` (src/core/session.rs:205-455) are modelled only by the aggregates they print. These are Sessions.CombinedAstStats, the query and search functions, and Sessions.SessionComplexity. Their JSON layout is not modelled.
- The preview creators `create_insert_preview` and `create_moveclass_preview` (src/core/preview.rs:194-273) are not modelled separately. Each is Preview.NewEntry followed by Preview.AddPreview. The placeholder text the second one builds is not modelled.
- `generate_preview` (src/core/preview.rs:79-140 and nekocode-workspace/nekorefactor/src/preview.rs:97-208) builds display text and is not modelled.
- `list_previews` (nekocode-workspace/nekorefactor/src/preview.rs:453-468) is not modelled. It returns the stored previews in hash order.
- Hash-map iteration order is unspecified in the source. Where it shows in a result, the model either states the result up to order (as sets or multisets) or takes the order as a parameter (NekoImpact, Sessions.IncludeCycles).
- The watcher's event loop, debounce timer and background task are not modelled, because they are concurrency and clocks: `start_watching` (src/commands/watch.rs:198-293 and nekocode-workspace/nekoinc/src/watch.rs:125-202) and the spawned task of `start_watch`. The Stopped or Error status that this background task records is also not modelled.
- PID-file I/O and process control are not modelled: `write_pid_file`, `read_pid_file`, `remove_pid_file`, `is_process_running` and `check_parent_alive` (src/commands/watch.rs:102-168, 287-294). Only the file names are modelled (Watch.WatchFilesDistinct).
- The watch command handlers `handle_watch_start`, `handle_watch_status`, `handle_watch_stop` and `handle_watch_stop_all` (src/commands/watch.rs:296-470) are not modelled. They spawn processes and print.
- The file-backed memory manager of the analysis engine (src/core/memory.rs) is not part of this model. The Memory module models the in-memory store of nekocode-workspace/nekocode-core/src/memory.rs.
- The command-line front ends, the MCP servers and configuration loading are not part of this model. `RefactorCli` models only the insert-position parser and the move-lines range check of nekocode-workspace/nekorefactor/src/main.rs.
- The analyzers' `get_language`, `get_language_name` and `get_supported_extensions` return constants; the extension table itself is modelled in CoreTypes and SharedTypes.

## Findings

| source | as written | input that shows it | evidently intended | confidence | as-written member | corrected member |
|---|---|---|---|---|---|---|
| src/core/session.rs:606-653 | when the depth-first search finds a back edge, it returns at once and leaves every file on the current path on its recursion stack. A later search from another file then reports an edge into that stale stack as a cycle | include graph A→B, B→A, C→B searched in the key order A, B, C: it reports [B, A] and then [C, B], yet no path leads from B back to C | a file leaves the recursion stack whenever its search returns, so that every reported pair lies on a cycle | high (not executed) | Sessions.StaleStackReportsNonCycle | Sessions.FixedReportsCycles |
| nekocode-workspace/nekorefactor/src/moveclass.rs:242 | `add_symbol_to_file` compares a line index with `existing.len()`, the byte length of the text, to decide whether to append at the end | target file "use a;" and symbol "fn f() {}" for Rust: the insertion point is line 1, which is not 6, so the symbol is spliced in as a line with no blank line before it | compare with the number of lines, so that appending at the end leaves a blank line as in the append branch | high (not executed) | MoveSymbol.AsWrittenSkipsBlankLine | MoveSymbol.AddedContentSpec |
| nekocode-workspace/nekoimpact/src/impact.rs:319-321 | `changed_symbols` accumulates across files, so once any file has a change, every common file compared after it is marked affected | base results [gone (with a function), kept] and head results [kept]: `kept` has no changes, but it is marked affected after the removal of `gone` | mark a common file affected only when its own comparison reports a change | high (not executed) | NekoImpact.UnchangedFileMarkedAffected | NekoImpact.FixedAffectedExactly |
| src/analyzers/javascript/analyzer.rs:619-629 | `find_class_end_line` detects the function fallback by comparing the end line with `start_line + 10`, so a class whose braces really close ten lines after its start is taken for the fallback and extended | "{" on line 1, nine brace-free lines, "}" on line 11, and at least forty more lines: the brace-matched end is 11, but the class is reported to end at line 51 | extend only when no closing brace was found | medium (not executed) | JsAnalyzer.ClassEndMistakenForFallback | JsAnalyzer.ClassEndLineFixed |

Each as-written member is a counterexample about the code as written:
Sessions.IncludeCycles, MoveSymbol.AddedContentAsWritten,
NekoImpact.CompareAnalysisResults and JsAnalyzer.ClassEndLineAsWritten.
The corrected members prove the intended property of the corrected
definitions Sessions.FindCyclesFixed, MoveSymbol.AddedContent,
NekoImpact.CompareAnalysisFixed and JsAnalyzer.ClassEndLine. The refactoring
tool's own operations (MoveSymbol.AddSymbolToFile, MoveSymbol.Move) and the
impact comparison keep the behaviour as written, because that is what the
tools do. The corrected definitions sit beside them.
