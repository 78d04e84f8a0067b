# minic, modelled in Dafny

minic is a C minifier built on clang. It walks the translation unit twice:
the collector records the functions, variables, fields, types and enum
constants of the main file, the allocator gives each record a short name from its category's alphabet and counter,
and the rewriter turns every reference to a record into a text edit. On
the reformatted text, `postProcess` then removes comments, collapses the
spaces around operators and joins lines.

This project models that core as Dafny code:

- `common.dfy` (module `Common`): the `DeclMapData` and
  `CompoundStmtMapData` records, `getParent`, and text edits.
- `names.dfy` (module `Names`): the candidate names `getName` builds, with
  their decoder, round trips and injectivity.
- `allocator.dfy` (module `Allocator`): `getName` itself, and the
  allocation loop as a specification function with its distinctness
  invariant.
- `globals.dfy` (module `Globals`): the global tables `used`, `d2name`,
  `c2d` and `ignores`, as a value and as the `SymbolTables` class.
- `collector.dfy` (module `Collector`): each visitor of the collector as
  an effect on the tables, and as a `Collector` class method that
  performs it in place.
- `renamer.dfy` (module `Renamer`): the rewriter's key selection and
  edits, and the `Renamer` class appending to `reps`.
- `postprocess.dfy` (module `PostProcess`): `removeComments`,
  `minifyOps`, `stripNewLine` and `postProcess`. Each is a loop-based
  method proved equal to a specification function.
- `driver.dfy` (module `Driver`):
  - the argument loop of `main`;
  - `MiniASTConsumer`, with its counters as fields;
  - the whole run from the command line to the post-processed text.

Clang supplies facts the model takes as inputs:

- whether a declaration is in the main file;
- whether it is a definition, a local or a parameter;
- its canonical declaration;
- the parents of a node;
- traversal order and token ranges.

The category tag is an enum in place of the hash of a pointer type.

Where the code departs from what a reader of the program would expect,
the model follows the code:

- `removeComments` is not idempotent. After a deletion, the next search
  resumes at the stale offset, so a comment that starts before it
  survives the pass (`RemoveCommentsNotIdempotent`).
- `/*/` is a complete comment, because the close search starts at the
  opener (`SelfClosingComment`).
- `minifyOps` treats `else` as an operator, so `else x` becomes `elsex`
  (`CollapseElse`). Only `elseif` is repaired.
- Every block has its own counter, nested blocks included. A local of an
  inner block can therefore get the same name as a parameter or local of
  the enclosing block, which it then shadows (`NestedBlocksCollide`, see
  "## Findings").
- The usage error for a missing file fires only when no argument at all
  is given (`argc < 2`). `minic -i` passes that check.
- Only `VisitMemberExpr` checks that the occurrence is in the main file.
  The other rewriter visitors emit an edit wherever the canonical
  declaration has a record.
- A local whose DeclStmt has no CompoundStmt parent is still recorded,
  with no block, and is named from the global variable pool
  (`LocalWithoutBlockIsGlobal`).

## Model

| member | source | states |
|---|---|---|
| Common.FirstOfKind | src/common.h:68-72 | None exactly when no entry has the kind; otherwise the result is the id of an entry of the kind with no entry of the kind before it |
| Common.GetParent | src/common.h:64-73 | None exactly when no direct parent of the node has the requested kind; a result is a direct parent of that kind |
| Common.GetParentFirstMatch | src/common.h:68-71 | when several direct parents have the kind, the earliest in the parent list is returned |
| Names.DigitsTable | src/main.cc:54-55 | the digit table has 62 characters and digit d is the d-th of 0-9, A-Z, a-z |
| Names.Base62 | src/main.cc:60-62 | the digits written for a nonzero quotient form a canonical digit string (nonempty, last digit nonzero) |
| Names.Value62OfBase62 | src/main.cc:60-62 | reading the digits back, least significant first, gives the quotient |
| Names.Base62OfValue62 | src/main.cc:60-62 | every canonical digit string is the digit string of its value |
| Names.QuotRemAreDivMod | src/main.cc:59-60 | the quotient and remainder the candidates use are C's `/` and `%` on non-negative counters |
| Names.Candidate | src/main.cc:59-62 | the candidate starts with prefix[id % k], and is a single character exactly when id < k |
| Names.CandidateAt | src/main.cc:59-62 | the candidate for q*k + r is prefix[r] followed by the digits of q, or by nothing when q is 0 |
| Names.DecodeCandidate | src/main.cc:59-62 | decoding the candidate for id gives back id |
| Names.CandidateDecode | src/main.cc:59-62 | any string that decodes is the candidate of the value it decodes to |
| Names.CandidateInjective | src/main.cc:59-63 | for an alphabet of distinct characters, distinct counter values give distinct candidates |
| Names.AppendDigits | src/main.cc:60-62 | the digit loop appends the base-62 digits of the quotient to the name |
| Names.CandidateOf | src/main.cc:59-62 | the construction of one candidate produces Candidate(prefix, id) |
| Allocator.AlphabetsAreRanges | src/main.cc:89-103 | the six alphabets are the letter ranges a-m, r-z, n-q, n-z, A-M and N-Z |
| Allocator.FirstUnused | src/main.cc:58-66 | the first counter value from id whose candidate is not in used; every value skipped had its candidate in used |
| Allocator.GetNameSpec | src/main.cc:53-72 | either the original spelling with the counter unchanged, or a strictly shorter name not in used that is the candidate of the counter's last value, with the counter strictly larger |
| Allocator.GetNameSkipsTaken | src/main.cc:58-66 | every counter value skipped before the accepted one had its candidate in used |
| Allocator.GetNameKeeps | src/main.cc:67-70 | the counter is rolled back exactly when the first free candidate is not shorter than the spelling, and then the spelling is kept |
| Allocator.GetNameKeepsShortSpelling | src/main.cc:67-70 | a spelling of at most one byte is never renamed |
| Allocator.GetName | src/main.cc:53-72 | the for(;;) loop with the by-reference counter returns GetNameSpec's name and counter, a shorter unused name starting with a prefix letter or the spelling with the counter unchanged |
| Allocator.PoolOf | src/main.cc:89-97 | a variable draws from a block's counter only when its block is recorded in c2d |
| Allocator.PoolAlphabet | src/main.cc:89-103 | every category alphabet is nonempty with distinct characters |
| Allocator.PoolAlphabets | src/main.cc:89-103 | functions, global variables, block locals, fields, types and enum constants use their own alphabets |
| Allocator.SharedLetter | src/main.cc:89-103 | two different pools whose alphabets share a letter are among the pairs that may share names |
| Allocator.AllocateOne | src/main.cc:84-104 | one iteration renames only the current record, to getName's result on its pool; only that pool's counter changes, to getName's new value |
| Allocator.AllocateAll | src/main.cc:83-108 | the loop keeps every key, category, block and block decl list, and leaves records outside the order unchanged |
| Allocator.StepInv | src/main.cc:83-108 | one iteration preserves the allocation invariant: every processed record kept its spelling or holds a shorter unused name below its pool's counter, and records renamed from the same pool have distinct names |
| Allocator.AllocateAllInv | src/main.cc:83-108 | the invariant holds after the whole loop over d2name's insertion order |
| Allocator.AllocationShortens | src/main.cc:67-103 | each record keeps its spelling or gets a strictly shorter name not in used whose first letter is in its pool's alphabet |
| Allocator.AllocationDistinct | src/main.cc:83-108 | two records share a name only if both kept their spellings, or they are in different pools whose alphabets may overlap and the name is new |
| Allocator.NestedBlocks | src/Collector.cc:55-57 | a parameter registered in a function body and a local of a block nested in it, each block's entry starting at counter 0 |
| Allocator.NestedBlocksCollide | src/main.cc:91-94 | as written, the outer parameter and the inner local both become `r` |
| Allocator.SharedLocals | src/main.cc:91-94 | the corrected rule keeps every record's key, name and category and moves every block local into one block whose counter starts at 0 |
| Allocator.SharedLocalsDistinct | src/main.cc:83-108 | under the corrected rule two block locals, of the same or of different blocks, share a name only if both kept their spellings |
| Allocator.SharedLocalsSeparate | src/main.cc:91-94 | under the corrected rule the nested example gets `r` and `s` |
| Globals.Initial | src/main.cc:10-13 | the tables start empty and well formed |
| Globals.Recorded | src/Collector.cc:87-88 | subscripting d2name creates a record with an empty name when missing, sets the category and keeps the block unless one is given; other records and tables are unchanged |
| Globals.Pushed | src/Collector.cc:56-57 | pushing onto c2d appends the decl to the block's list (created with counter 0 when missing) and changes nothing else |
| Globals.SymbolTables.constructor | src/main.cc:10-13 | the globals start as Initial() |
| Globals.SymbolTables.Insert | src/Collector.cc:27 | used gains the name and nothing else changes |
| Globals.SymbolTables.AddIgnore | src/main.cc:171 | ignores gains the name at the end and nothing else changes |
| Globals.SymbolTables.Record | src/Collector.cc:87-88 | the tables become Recorded(old tables) |
| Globals.SymbolTables.PushDecl | src/Collector.cc:57 | the tables become Pushed(old tables) |
| Globals.SymbolTables.SetName | src/main.cc:90 | only the record's name changes |
| Globals.SymbolTables.SetBlockCounter | src/main.cc:93-94 | only the block's counter changes |
| Collector.VarBlock | src/Collector.cc:51-81 | a local's block is the CompoundStmt parenting its DeclStmt, none when a lookup fails; a parameter's block is its function's body; other variables have none |
| Collector.VarEffect | src/Collector.cc:24-90 | a named variable's spelling enters used; only a main-file Definition gets a record, tagged as a variable; other records and block counters are unchanged |
| Collector.ParamsEffect | src/Collector.cc:18-19 | visiting the parameters keeps the tables well formed and ignores unchanged |
| Collector.ParamsUsed | src/Collector.cc:18-19 | the parameters' spellings enter used |
| Collector.ParamsRecords | src/Collector.cc:18-19 | exactly the recordable parameters gain records; no other record changes |
| Collector.ParamsAreVariables | src/Collector.cc:18-19 | every recordable parameter ends up recorded as a variable |
| Collector.ParamsKeepCounters | src/Collector.cc:18-19 | the parameters leave every block counter as it was |
| Collector.FunctionEffect | src/Collector.cc:3-22 | a function's spelling enters used unless it is an operator or unnamed; only a defined main-file function not in ignores gets a record; its parameters are visited whenever it is a defined main-file function |
| Collector.FunctionRecordedIff | src/Collector.cc:7-17 | after the visit the function has a function record exactly when it is recordable or already had one |
| Collector.IgnoredFunctionParamsRecorded | src/Collector.cc:10-19 | an ignored main-file function gets no record but its recordable parameters do |
| Collector.MainFileDeclEffect | src/Collector.cc:92-129 | a field, type or enum constant's spelling enters used unconditionally, and it gets a record of its category exactly when it is in the main file |
| Collector.VisitEffect | src/Collector.cc:3-129 | every visit keeps the tables well formed, only grows used and d2name, and never changes a block counter |
| Collector.CollectAll | src/Collector.cc:3-129 | the traversal keeps the tables well formed, only grows used and d2name, and never changes a block counter |
| Collector.LocalInBlock | src/Collector.cc:51-59 | a local under a DeclStmt under a CompoundStmt is registered in that block and draws from its counter |
| Collector.LocalWithoutBlockIsGlobal | src/Collector.cc:51-59 | a new local whose parent lookups fail is still recorded, with no block, and draws from the global variable pool |
| Collector.ParamInBody | src/Collector.cc:71-81 | a parameter is registered in its function's body block and draws from its counter |
| Collector.VisitKeepsSpellings | src/Collector.cc:3-129 | after a visit every recorded declaration's spelling is in used |
| Collector.CollectKeepsSpellings | src/Collector.cc:3-129 | after the traversal every recorded declaration's spelling is in used |
| Collector.Collector.constructor | src/Collector.h:14 | the collector works on the given tables and AST context |
| Collector.Collector.VisitVarDecl | src/Collector.cc:24-90 | returns true and updates the tables as VarEffect says |
| Collector.Collector.VisitFunctionDecl | src/Collector.cc:3-22 | returns true and updates the tables as FunctionEffect says |
| Collector.Collector.VisitFieldDecl | src/Collector.cc:92-103 | returns true and updates the tables as MainFileDeclEffect says for a field |
| Collector.Collector.VisitTypeDecl | src/Collector.cc:105-117 | returns true and updates the tables as MainFileDeclEffect says for a type |
| Collector.Collector.VisitEnumConstantDecl | src/Collector.cc:119-129 | returns true and updates the tables as MainFileDeclEffect says for an enum constant |
| Collector.Collector.VisitMainFileDecl | src/Collector.cc:92-103 | the shared body of the three visitors above: used gains the spelling, and a main-file declaration is recorded |
| Collector.Collector.Dispatch | src/Collector.cc:3-129 | one visit updates the tables as VisitEffect says |
| Collector.Collector.Traverse | src/main.cc:81-82 | the traversal updates the tables as CollectAll says |
| Renamer.TypeLocKey | src/Renamer.cc:90-96 | the template parameter view overrides the typedef view, which overrides the tag view |
| Renamer.SimpleOccurrence | src/Renamer.cc:39-101 | a member expression asks only in the main file; a reference asks only for the five renamed kinds; a type location asks with TypeLocKey |
| Renamer.Lookup | src/Renamer.cc:55-57 | one edit exactly when the key is in d2name, replacing the range with the record's name; none otherwise |
| Renamer.LookupAll | src/Renamer.cc:21-24 | at most one edit per occurrence |
| Renamer.LookupAllFromHits | src/Renamer.cc:21-24 | every edit of a list of lookups comes from one of them that hit |
| Renamer.NodeEditsFromHits | src/Renamer.cc:3-109 | every edit a node emits comes from one of its occurrences that hit |
| Renamer.DeclVisitorEdit | src/Renamer.cc:3-9 | a declaration visitor emits exactly one edit with the record's name when its canonical decl is recorded, nothing otherwise |
| Renamer.ConstructorMiss | src/Renamer.cc:16-17 | a constructor whose class has no record emits nothing, not even for its initializers and parameters |
| Renamer.ConstructorHit | src/Renamer.cc:16-25 | on a hit the first edit renames the constructor to the class's name, followed by one edit per hit initializer and parameter |
| Renamer.ConstructorEdits | src/Renamer.cc:16-25 | on a hit the edits are the name edit, then the initializers' lookups, then the parameters' lookups |
| Renamer.LookupAllCount | src/Renamer.cc:21-24 | the number of edits is the number of hits |
| Renamer.MemberOutsideMainFile | src/Renamer.cc:42 | a member expression outside the main file emits nothing |
| Renamer.OtherReference | src/Renamer.cc:63-66 | a reference to anything but the five renamed kinds emits nothing |
| Renamer.RenameAllFromHits | src/main.cc:109-111 | every edit of the traversal comes from an occurrence that hit |
| Renamer.RenameAllNonOverlapping | src/Renamer.h:13-15 | when distinct occurrences whose lookups hit have disjoint ranges (misses may overlap anything), the traversal's edits never overlap |
| Renamer.RenameAllTexts | src/Renamer.h:13-15 | every edit overwrites the range of an occurrence whose lookup hit, with the name recorded for that occurrence's key |
| Renamer.ElaboratedTypeConsistent | src/Renamer.cc:89-101 | `struct S x;` visits an elaborated TypeLoc that misses and its named TypeLoc over the same range that hits; the traversal then satisfies the disjointness hypothesis and emits the one edit renaming the tag |
| Renamer.Renamer.constructor | src/Renamer.h:11-12 | the rewriter starts on the given d2name and reps |
| Renamer.Renamer.Replace | src/Renamer.h:13-15 | reps gains exactly the edit, at the end |
| Renamer.Renamer.LookupAndReplace | src/Renamer.cc:55-57 | reps gains Lookup's edits |
| Renamer.Renamer.VisitFunctionDecl | src/Renamer.cc:3-9 | returns true and appends the node's edits |
| Renamer.Renamer.VisitCXXConstructorDecl | src/Renamer.cc:13-27 | returns true and appends the constructor's edits |
| Renamer.Renamer.VisitInits | src/Renamer.cc:21-22 | the loop over initializers appends their lookups in order |
| Renamer.Renamer.VisitParams | src/Renamer.cc:23-24 | the loop over parameters appends their lookups in order |
| Renamer.Renamer.VisitCXXCtorInitializer | src/Renamer.cc:30-37 | returns true and appends the initializer's edits, keyed on the member |
| Renamer.Renamer.VisitMemberExpr | src/Renamer.cc:39-51 | returns true and appends the member expression's edits |
| Renamer.Renamer.VisitVarDecl | src/Renamer.cc:53-59 | returns true and appends the variable's edits |
| Renamer.Renamer.VisitDeclRefExpr | src/Renamer.cc:61-72 | returns true and appends the reference's edits |
| Renamer.Renamer.VisitFieldDecl | src/Renamer.cc:74-80 | returns true and appends the field's edits |
| Renamer.Renamer.VisitTypeDecl | src/Renamer.cc:82-87 | returns true and appends the type's edits |
| Renamer.Renamer.VisitTypeLoc | src/Renamer.cc:89-101 | returns true and appends the type location's edits |
| Renamer.Renamer.VisitEnumConstantDecl | src/Renamer.cc:103-109 | returns true and appends the enum constant's edits |
| Renamer.Renamer.Dispatch | src/Renamer.cc:3-109 | one node appends NodeEdits |
| Renamer.Renamer.Traverse | src/main.cc:110-111 | the traversal appends RenameAll's edits |
| PostProcess.Find | src/postProcess.cc:24-25 | the first position at or after `from` where the pattern occurs, or None when there is none |
| PostProcess.BlockPass | src/postProcess.cc:24-28 | the block-comment loop fails only with status 2 |
| PostProcess.LinePass | src/postProcess.cc:32-36 | the line-comment loop fails only with status 2 |
| PostProcess.BlockPassShrinks | src/postProcess.cc:24-28 | the block-comment loop only deletes: the result is a subsequence of the input, so no longer and a sub-multiset of its characters |
| PostProcess.LinePassShrinks | src/postProcess.cc:32-36 | the line-comment loop only deletes: the result is a subsequence of the input |
| PostProcess.RemoveCommentsShrinks | src/postProcess.cc:21-37 | removeComments only deletes characters: the result is a subsequence of the input, no longer and a sub-multiset |
| PostProcess.BlockPassSubsequence | src/postProcess.cc:24-28 | by induction over the deletions, the block-comment loop's result is a subsequence of its input |
| PostProcess.LinePassSubsequence | src/postProcess.cc:32-36 | by induction over the deletions, the line-comment loop's result is a subsequence of its input |
| PostProcess.SubsequenceShrinks | src/postProcess.cc:21-37 | a subsequence is no longer than the text and uses no character more often |
| PostProcess.SubsequenceTrans | src/postProcess.cc:21-37 | a subsequence of a subsequence is a subsequence, so deletions compose across iterations |
| PostProcess.DeleteSubsequence | src/postProcess.cc:27 | erasing one range leaves a subsequence |
| PostProcess.SubsequenceKeepsOrder | src/postProcess.cc:21-37 | subsequence keeps order: `ba` is not a subsequence of `ab` |
| PostProcess.RemoveCommentsNoComments | src/postProcess.cc:21-37 | text without `/*` or `//` is left unchanged |
| PostProcess.SelfClosingComment | src/postProcess.cc:24-27 | `/*/` is removed as a whole comment |
| PostProcess.UnterminatedBlockComment | src/postProcess.cc:25-26 | a `/*` with no `*/` after it exits with status 2 |
| PostProcess.LineCommentAtEnd | src/postProcess.cc:33-34 | a `//` with no newline after it exits with status 2 |
| PostProcess.CommentSkipped | src/postProcess.cc:24-28 | the stale offset lets the second of two comments survive |
| PostProcess.SecondRun | src/postProcess.cc:21-37 | a second run removes the comment the first run kept |
| PostProcess.RemoveCommentsNotIdempotent | src/postProcess.cc:21-37 | running removeComments twice can give a different result from running it once |
| PostProcess.RemoveComments | src/postProcess.cc:21-37 | the two loops compute RemoveCommentsSpec |
| PostProcess.RemoveBlockComments | src/postProcess.cc:24-28 | the first loop, with its moving offsets, computes BlockPass from offset 0 |
| PostProcess.RemoveLineComments | src/postProcess.cc:32-36 | the second loop computes LinePass from offset 0 |
| PostProcess.OpsValid | src/postProcess.cc:8-12 | the operator list has 42 entries, each a nonempty token without a space |
| PostProcess.CollapseKeepsText | src/postProcess.cc:42-49 | collapsing around one operator changes only spaces: with every ' ' dropped, output and input agree |
| PostProcess.CollapseNoSpaces | src/postProcess.cc:42-49 | text without spaces is left unchanged |
| PostProcess.CollapseAssignment | src/postProcess.cc:42-49 | `x = 1` around `=` becomes `x=1` |
| PostProcess.CollapseElse | src/postProcess.cc:42-49 | `else x` around `else` becomes `elsex` |
| PostProcess.FixElseIfKeepsText | src/postProcess.cc:52 | the `elseif` repair changes only spaces |
| PostProcess.FixElseIfNone | src/postProcess.cc:52 | text without `elseif` is left unchanged |
| PostProcess.FixElseIfAtFirst | src/postProcess.cc:52 | the first `elseif` becomes `else if` and the scan continues after it |
| PostProcess.FixElseIfComplete | src/postProcess.cc:52 | no `elseif` remains after the repair |
| PostProcess.StepsKeepText | src/postProcess.cc:40-53 | any run of the per-operator steps changes only spaces |
| PostProcess.StepsNoElseIf | src/postProcess.cc:40-53 | after at least one step no `elseif` remains |
| PostProcess.StepsIdentity | src/postProcess.cc:40-53 | text with no spaces and no `elseif` is a fixed point of the steps |
| PostProcess.MinifyOpsKeepsText | src/postProcess.cc:39-54 | with every ' ' dropped, minifyOps' output equals its input; tabs and newlines are untouched |
| PostProcess.MinifyOpsNoElseIf | src/postProcess.cc:39-54 | minifyOps' output contains no `elseif` |
| PostProcess.MinifyOpsIdentity | src/postProcess.cc:39-54 | text with no spaces and no `elseif` is unchanged |
| PostProcess.MinifyOps | src/postProcess.cc:39-54 | the loop over the operator list computes MinifyOpsSpec |
| PostProcess.RunSteps | src/postProcess.cc:40-53 | the loop over a list of operators computes Steps |
| PostProcess.LineEnd | src/postProcess.cc:63 | the position of the first newline, or the end of the text |
| PostProcess.Lines | src/postProcess.cc:63 | the lines getline reads contain no newline |
| PostProcess.LinesJoin | src/postProcess.cc:63 | joining the lines gives the text without its newlines |
| PostProcess.StripKeepsText | src/postProcess.cc:63-92 | apart from newlines, the state machine's output is the lines with their trailing backslashes removed |
| PostProcess.PieceKeepsText | src/postProcess.cc:64-91 | apart from newlines, what one line contributes is the line without a trailing backslash |
| PostProcess.StripPlain | src/postProcess.cc:89-91 | lines that are not directives and do not end in a backslash (empty lines included) are joined with no newline |
| PostProcess.StripNewLinePlain | src/postProcess.cc:56-95 | for text of such lines, stripNewLine only removes the newlines |
| PostProcess.DirectiveKeepsNewline | src/postProcess.cc:76-80 | a `#` line keeps its newline and the plain lines after it are joined |
| PostProcess.MacroContinuation | src/postProcess.cc:67-87 | a continued `#define` is joined without its backslash, and the line that ends it gets a newline |
| PostProcess.LoneBackslashUndefined | src/postProcess.cc:67-73 | a lone `\` line outside a macro reads the front of an empty line; inside a macro the flag short-circuits the read |
| PostProcess.StripNewLine | src/postProcess.cc:56-95 | the getline loop with the lastLineIsMacro flag computes StripNewLineSpec |
| PostProcess.JoinLine | src/postProcess.cc:64-92 | one iteration appends what the line contributes and computes the next flag |
| PostProcess.PostProcess | src/postProcess.cc:97-101 | removeComments, then minifyOps, then stripNewLine, and a comment error ends with its status |
| PostProcess.PostProcessKeepsText | src/postProcess.cc:97-101 | for text without backslashes, after comments are removed, postProcess changes only spaces and newlines |
| PostProcess.NoBackslashAfterMinify | src/postProcess.cc:97-101 | the first two passes never introduce a backslash |
| PostProcess.StripNewLineKeepsText | src/postProcess.cc:56-95 | for text without backslashes, stripNewLine changes only newlines |
| Driver.ParseFromExits | src/main.cc:161-178 | the loop exits with 0 only if some remaining argument is `-h`, and with 1 only if one is a rejected option |
| Driver.ParseArgsExits | src/main.cc:161-183 | the command line exits with 0 only if some argument is `-h`, and with 1 only if one is a rejected option or no argument is given |
| Driver.ParseFromArgs | src/main.cc:163-164 | the compiler arguments keep what they held, and every argument added is a command-line argument not starting with `-` |
| Driver.ParseFromIgnores | src/main.cc:170-171 | the loop only appends to ignores |
| Driver.ParseFromIgnoreAt | src/main.cc:170-171 | every name the loop appends to ignores follows a `-f` |
| Driver.ParseArgsShape | src/main.cc:153-185 | a successful parse had at least one argument, starts the compiler arguments with the program and the two fixed flags, and ends ignores with "main" |
| Driver.ParseArgsIgnored | src/main.cc:170-185 | every entry of ignores before the final "main" is the argument of a `-f` |
| Driver.ParseExample | src/main.cc:161-185 | `-f foo a.c -i` ignores foo and main, edits in place and passes a.c to the compiler |
| Driver.ParseIgnoredHelp | src/main.cc:170-171 | the argument of `-f` is not examined, so `-f -h` ignores `-h` instead of printing help |
| Driver.ParseUsageErrors | src/main.cc:161-183 | `-o` at the end, an unknown option and no arguments exit 1; `-h` wins over a later bad option |
| Driver.ParseCommandLine | src/main.cc:161-185 | the imperative argument loop computes ParseArgs |
| Driver.ReservedAreCandidates | src/main.cc:74-77 | the reserved names contain names the function and local pools would otherwise produce |
| Driver.MiniASTConsumer.constructor | src/main.cc:50 | all five counters start at 0 |
| Driver.MiniASTConsumer.HandleTopLevelDecl | src/main.cc:73-79 | returns true and adds the eighteen Bessel names to used; nothing else changes |
| Driver.MiniASTConsumer.AllocateEntry | src/main.cc:84-104 | one iteration takes the tables and counters to AllocateOne of their old values |
| Driver.MiniASTConsumer.NameInPool | src/main.cc:89-103 | the category dispatch returns getName's name for the record's pool and writes the new counter back to that pool only |
| Driver.MiniASTConsumer.SetCounter | src/main.cc:92-94 | the write through the counter reference changes that pool's counter only |
| Driver.MiniASTConsumer.AssignNames | src/main.cc:83-108 | the loop over d2name computes AllocateAll in insertion order |
| Driver.MiniASTConsumer.HandleTranslationUnit | src/main.cc:80-119 | collects, allocates from the current counters and returns the rewriter's edits for the allocated names |
| Driver.StartTables | src/main.cc:185 | the globals before the traversal are well formed with no records |
| Driver.RunConsumer | src/main.cc:185-210 | the consumer's edits are RenameAll over the allocation of the collected records from zero counters |
| Driver.Minify | src/main.cc:152-212 | the whole run computes MinifySpec: an exit status from the command line or postProcess, or the options, edits and final text |
| Driver.RunNamesFreshOrKept | src/main.cc:53-108 | every record keeps its spelling or gets a strictly shorter name outside used (no spelling of a visited function, variable, field, type or enum constant, and no reserved name) starting with a letter of its pool |
| Driver.RunAvoidsReserved | src/main.cc:73-79 | once a declaration group was seen, no record is given a reserved name it was not already spelled as |
| Driver.RunNamesDistinct | src/main.cc:83-108 | two records share a name only if both kept their spellings, or they come from different pools whose alphabets overlap |

## Findings

| source | as written | input that shows it | evidently intended | confidence | as-written member | corrected member |
|---|---|---|---|---|---|---|
| src/main.cc:91-94 | each CompoundStmt's entry in `c2d` starts its own local counter at 0 (src/Collector.cc:57), also for a block nested in another | `int f(int count){{int total=count;return total;}}`: `count` and `total` both become `r`, giving `int r=r;` | locals visible together get different names, for example by all block locals sharing one counter | not executed | Allocator.NestedBlocksCollide | Allocator.SharedLocalsDistinct |

The corrected rule is `Allocator.SharedLocals`; `Allocator.SharedLocalsSeparate`
shows it naming the example's two variables `r` and `s`. The rest of the
model follows the code as written.

## Left out

- The clang front end is not modelled: the compiler invocation (src/main.cc:19-46), the frontend action and instance setup (src/main.cc:122-127, 187-210) and the `errx(1, …)`/`errx(2, …)` failures they can raise. Traversal order, canonical declarations, `isWrittenInMainFile`, parent lists, token ranges and spellings are inputs.
- `reformat()` (src/main.cc:129-149) is a clang-format call: its output enters `Minify` as the `formatted` parameter.
- Applying the replacements (src/main.cc:112-118, `tooling::Replacements` in src/Renamer.h:14) is library behaviour. Edits are a list, and non-overlap is a proved property under a stated assumption on occurrence ranges. Adding the same edit twice, as constructor parameters can, is not judged.
- Writing the output file (src/main.cc:214-218) and printing the usage text are I/O. A run ends in `Exit(status)` or in the options and text that would be written.
- How many times clang calls HandleTopLevelDecl is an input, `groups`.
- The `std::regex` engine is not modelled. Each minifyOps step is the literal-token space collapse the pattern ` *OP *` performs; `ESC_OPS` (src/postProcess.cc:14-19) is only the escaped spelling of `OPS`.
- Debug output under `NDEBUG` (src/main.cc:86-88, 105-107, and the `errs()` expressions of src/Collector.cc) is left out.
- `int` overflow of the counters is not modelled: they are `nat`. A translation unit with more than 2^31 names in one pool is out of scope.
- Undefined behaviour is excluded by precondition instead of modelled:
  - a lone `\` line outside a macro (`Defined`, src/postProcess.cc:70-73);
  - a recorded parameter with no declaration context (`SafeVar`, src/Collector.cc:72-73);
  - an empty argument examined as an option (`ArgsDefined`, src/main.cc:163).
- Undefined behaviour excluded by the data model: a recorded class's constructor with a base, delegating or indirect-field initializer, whose null `getMember()` src/Renamer.cc:31 dereferences (src/Renamer.cc:18-22). `CtorInit` represents member initializers only.
- src/Collector.h and src/Renamer.h hold declarations only. `getParent` is modelled once, in `Common`; Collector.h's member template is the same lookup.
- Renamer.RenameAllNonOverlapping: disjointness is assumed among the occurrences whose lookups hit (misses may overlap anything); clang's token ranges are not modelled, so this is an assumption about the input.
- Strings: `string` stands for a `std::string` of bytes. Spellings, names and source text are given as their UTF-8 bytes, one element per byte, so the length test of `getName` (src/main.cc:67) compares byte counts.
