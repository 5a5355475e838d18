# Verified models of the work-management application

This project models the logic of the web application and its API that is hard to get right by reading:
a formula language, a graph layout, a Markdown printer and parser, a distributed lock, token refresh
shared by concurrent requests, a timer state machine, a grouped task list, a calendar, a CSV export and
the accounting of language-model costs. `dafny verify dfyconfig.toml` checks all of it.

## The parts

**Formulas.** `FormulaLexer` has the scanning loops and a specification `Lex`; `Segments` is an independent
definition of tokenizing, a cut of the input into blanks and longest spellings. `FormulaGrammar` has the
layered grammar as derivation trees, without any parsing order. `FormulaSyntax` specifies recursive descent
on token suffixes and proves it sound and complete for the grammar. `FormulaParser` is the source's class
with its one mutable position. `Formula` joins them. `FormulaText` states the language over characters,
marks and binding strengths, and proves that what is written by it is accepted. The source keeps only part
of a tree and drops the operators; the model parses to full trees, and `Erase` gives what the source keeps.
Numbers stay the characters that spell them.

**Dependency graph.** `Paths` defines distance by paths and shows what a breadth-first search visits.
`DependencyColumns` has the two bounded passes over one map of columns and says what a column means.
`DependencyLayout` has grouping, sorting, coordinates and the edge filter, and proves the geometry from
`IsLayout`, which fixes the result without fixing the order of discovery; `LayoutGeometry` says in drawing
units where the nodes stand, and which nodes are drawn. `Sorting` is the stable sort that the list view and
the cost summary use too.

**Markdown.** `ProseMirror` is the whole printer, with marks, images, mentions, block quotes and nested
lists; `PrinterForms` says what each of these prints as. `MarkdownLines` has the patterns, each evaluated
on one line, and `MarkdownPatterns` the lines that match them, put together from their parts.
`MarkdownParser` has the parser's loops and decides for which texts they end; `MarkdownReading` says what a
text means, as a fall of its lines into blocks, without any parsing order; `MarkdownRoundTrip` prints flat
documents and parses them back. The parser does not end on every text: when a line starts like a task item
and has a carriage return or a Unicode line separator in its text, the inner loop leaves at once and the
outer loop begins again on the same line, pushing an empty list each time. The model returns `Hangs` for
such an iteration.

**Scheduler lock.** `SchedulerLock` is a transition system over any number of calls, keys and a clock, in
which commands can be late or lost and replicas can crash anywhere; `SchedulerCalls` follows whole calls
from their first command to their result. Assumptions: tokens are unique, a command is executed at most
once, and the clock is the store's and never runs backwards.

**Token refresh.** `AuthRefresh` is a transition system over any number of concurrent requests; code
between two awaits runs in one piece. `AuthHistory` tells where the tokens of a run come from. `SdkRequest`
is one request of the typed client with its headers and its reading of the response. A round that begins
without a refresh token returns before the `try` block, so no timer ever clears it: the client is then
stuck for good, and this is proved as it stands. A sign-in that is refused with 401 is enough
(`AuthRefresh.RefusedSignInSticks`).

**Pomodoro.** `Pomodoro` is the hook as a state machine over a clock that never runs backwards;
`PomodoroPhases` says how long its phases last and what follows what. The comment at the head of the source
file says that the timer stops in idle after a long break; the code and its own state graph go on to the
first work phase, and the model follows the code.

**List view.** `EpicAncestors` is the search for the nearest Epic, `ListView` the indexes, groups and
recursive rendering, `ListViewRows` the count of rows for each task and `ListViewOrder` the order of the
rows, both for any set of expanded rows.

**Calendar.** `CivilDates` has civil dates and the overflow of the date setters for any table of months,
and the Gregorian calendar as one (`Gregorian`), which `KnownDates` checks against another count of days;
`CalendarPage` has rescheduling and the month grid; `DayKeys` the keys of days. The date constructor maps
the years 0 to 99 to 1900 to 1999.

**CSV and cost.** `WorklogCsv` has the export and a reader after section 2 of RFC 4180; `AiCost` the
rounding, the grouping query and the folding loop, `AiPrices` what calls cost and how windows add up. The
comment on `summary` promises one point for each UTC day of the half-open window. The code also makes a
point for the day of `until` when `until` is midnight, and for the day of an empty window;
`AiCost.DaysAreWindowExactly` says when the promise holds.

`JsText` and `Results` hold string operations and result types.

## Model

| member | source | states |
|---|---|---|
| `FormulaLexer.LexIsSegmentation` | apps/web/src/lib/formula-evaluator.ts:49-126 | the tokenizer succeeds exactly on the inputs that cut into blanks and longest spellings, and every such cut gives its tokens |
| `FormulaLexer.SegmentsAreLexed` | apps/web/src/lib/formula-evaluator.ts:49-126 | whatever cut of the input into longest spellings there is, the scanner returns the tokens of that cut |
| `FormulaLexer.SpellingIsTaken` | apps/web/src/lib/formula-evaluator.ts:63-122 | a spelling that the next character cannot continue is the token taken at that place |
| `FormulaLexer.PrintedLexesBack` | apps/web/src/lib/formula-evaluator.ts:49-126 | printing any well-formed tokens with escaped strings, and blanks at least where two of them would run together, then tokenizing, gives the tokens back |
| `FormulaLexer.QuotedStringLexesBack` | apps/web/src/lib/formula-evaluator.ts:74-95 | every string over any characters survives quoting with the four escapes |
| `FormulaLexer.NormalFormLexesBack` | apps/web/src/lib/formula-evaluator.ts:49-126 | printing the tokens of any accepted input gives a text with the same tokens |
| `FormulaLexer.Tokenize` | apps/web/src/lib/formula-evaluator.ts:49-126 | the outer loop returns what the specification returns, errors included |
| `FormulaLexer.ScanToken` | apps/web/src/lib/formula-evaluator.ts:58-123 | the token at a position and the position behind it, or the error |
| `FormulaLexer.ScanString` | apps/web/src/lib/formula-evaluator.ts:74-95 | the value of a string literal with its escapes undone, or which escape is wrong, or that the literal does not end |
| `FormulaLexer.ScanNumber` | apps/web/src/lib/formula-evaluator.ts:63-72 | the loop stops behind the longest run of digits with at most one dot |
| `FormulaSyntax.ParserRecognisesGrammar` | apps/web/src/lib/formula-evaluator.ts:139-236 | the parse succeeds if and only if some derivation tree yields the token list |
| `FormulaSyntax.ParseAllYield` | apps/web/src/lib/formula-evaluator.ts:139-236 | every derivation tree is recovered from the tokens it yields |
| `FormulaSyntax.GrammarUnambiguous` | apps/web/src/lib/formula-evaluator.ts:150-236 | a token list has at most one derivation, so precedence and left association are forced |
| `FormulaSyntax.ParseSound` | apps/web/src/lib/formula-evaluator.ts:150-186 | at every level the tree is in the grammar and yields exactly the tokens consumed |
| `FormulaSyntax.ParseYield` | apps/web/src/lib/formula-evaluator.ts:150-186 | at every level the yield of a tree is parsed to that tree when no operator of the level or a tighter one follows |
| `FormulaSyntax.PrimarySound` | apps/web/src/lib/formula-evaluator.ts:187-236 | literals, calls, field references, lists and parentheses yield exactly the tokens consumed |
| `FormulaSyntax.PrimaryYield` | apps/web/src/lib/formula-evaluator.ts:187-236 | every primary tree is parsed back from its yield, whatever follows |
| `FormulaParser.Parser.Parse` | apps/web/src/lib/formula-evaluator.ts:139-148 | accepts exactly the formulas of the grammar, with the erased tree or the specified error |
| `FormulaParser.Parser.ParseOr` | apps/web/src/lib/formula-evaluator.ts:150-154 | moves the position and builds the tree as specified for the level |
| `FormulaParser.Parser.ParseAnd` | apps/web/src/lib/formula-evaluator.ts:155-159 | the same for conjunction |
| `FormulaParser.Parser.ParseEq` | apps/web/src/lib/formula-evaluator.ts:160-164 | the same for equality |
| `FormulaParser.Parser.ParseCmp` | apps/web/src/lib/formula-evaluator.ts:165-172 | the same for comparison |
| `FormulaParser.Parser.ParseAdd` | apps/web/src/lib/formula-evaluator.ts:173-177 | the same for sums |
| `FormulaParser.Parser.ParseMul` | apps/web/src/lib/formula-evaluator.ts:178-182 | the same for products |
| `FormulaParser.Parser.ParseUnary` | apps/web/src/lib/formula-evaluator.ts:183-186 | the same for prefix operators |
| `FormulaParser.Parser.ParsePrimary` | apps/web/src/lib/formula-evaluator.ts:187-236 | the same for primaries, with every error |
| `FormulaParser.Parser.ExpectPunct` | apps/web/src/lib/formula-evaluator.ts:242-250 | steps over the expected mark or reports the token found instead |
| `Formula.ParseFormula` | apps/web/src/lib/formula-evaluator.ts:258-266 | accepts exactly the texts of at most 4096 code units that cut into at most 1024 tokens of the grammar; which error when not |
| `Formula.NoTokensMeansSpaces` | apps/web/src/lib/formula-evaluator.ts:260-263 | the second emptiness guard never fires: a text without tokens is white space already |
| `FormulaText.WrittenFormulaIsAccepted` | apps/web/src/lib/formula-evaluator.ts:49-266 | every derivation tree with plain names and numbers, written with any blanks that keep its tokens apart, is tokenized as its yield, parsed back as itself, and accepted if and only if it has at most 4096 code units and 1024 tokens |
| `FormulaText.TextIsRead` | apps/web/src/lib/formula-evaluator.ts:49-236 | every tree, spelled out with the literal marks of the language, is read back as that tree |
| `FormulaText.WellFormedIsPlain` | apps/web/src/lib/formula-evaluator.ts:53-122 | the alphabet, stated over characters: numbers, names and the twenty marks are exactly the tokens that can be printed and read |
| `FormulaText.BlanksArePlain` | apps/web/src/lib/formula-evaluator.ts:59-62 | blanks are space, tab, line feed and carriage return, and nothing else |
| `FormulaText.EscapesAreFour` | apps/web/src/lib/formula-evaluator.ts:78-89 | after a backslash come a backslash, a quote, n or t, with their values; any other character is an invalid escape |
| `FormulaText.OperatorsByStrength` | apps/web/src/lib/formula-evaluator.ts:150-182 | which operators stand at which of the six binary levels |
| `FormulaText.PrecedenceDecides` | apps/web/src/lib/formula-evaluator.ts:150-186 | between any three operands, prefixed ones included, the stronger of two operators takes its operands first, and the left one among equals |
| `FormulaText.OperandForms` | apps/web/src/lib/formula-evaluator.ts:183-236 | what an operand can be: prefixed operands, numbers, strings, the three literal names, calls of other names, fields, lists and brackets, with any formulas inside |
| `FormulaText.NameAlone` | apps/web/src/lib/formula-evaluator.ts:191-203 | a name alone is a formula when it is true, false or null, and a bare identifier otherwise |
| `FormulaText.TrailingTokenIsReported` | apps/web/src/lib/formula-evaluator.ts:139-148 | after a whole formula, a token that is no binary operator is the one reported |
| `FormulaText.StrangeCharacterIsReported` | apps/web/src/lib/formula-evaluator.ts:123 | a character that begins no token is reported, whatever follows it |
| `FormulaText.OpenStringIsReported` | apps/web/src/lib/formula-evaluator.ts:74-95 | a quote that is never closed, or a backslash at the end of the text, is reported as such |
| `FormulaText.ConjunctionIsAccepted` | apps/web/src/lib/formula-evaluator.ts:155-164 | an equality, a conjunction and another equality make an accepted formula |
| `JsText.LengthAddsUp` | apps/web/src/lib/formula-evaluator.ts:261 | the length counts one unit for a character of the basic plane and two for any other |
| `Paths.ShellIsDistance` | apps/web/src/components/TaskDependencyGraph.tsx:115-129 | what a breadth-first search finds at a depth is what is at that distance by paths |
| `Paths.AvoidingDistance` | apps/web/src/components/TaskDependencyGraph.tsx:130-144 | the same for a search that keeps out of assigned nodes |
| `DependencyColumns.BuildAdjacency` | apps/web/src/components/TaskDependencyGraph.tsx:96-107 | successors and predecessors are those of the edges with both ends among the nodes |
| `DependencyColumns.Expand` | apps/web/src/components/TaskDependencyGraph.tsx:117-129 | one depth assigns exactly the unassigned neighbours of the frontier, once each |
| `DependencyColumns.BfsPass` | apps/web/src/components/TaskDependencyGraph.tsx:115-144 | a pass assigns to each depth up to 4 the nodes at that distance outside what was assigned before |
| `DependencyColumns.AssignColumns` | apps/web/src/components/TaskDependencyGraph.tsx:112-144 | both passes over one map, with the map's keys in the order of insertion |
| `DependencyColumns.ForwardColumnIsDistance` | apps/web/src/components/TaskDependencyGraph.tsx:115-129 | column d holds exactly the nodes whose shortest successor path from the focal node has length d |
| `DependencyColumns.BackwardColumnIsDistance` | apps/web/src/components/TaskDependencyGraph.tsx:130-144 | column -d holds exactly the nodes not assigned forward whose shortest predecessor path outside those has length d |
| `DependencyColumns.ColumnIsUnique` | apps/web/src/components/TaskDependencyGraph.tsx:109-144 | no node gets two columns, on cycles and self-loops too |
| `DependencyLayout.LayoutDependencyGraph` | apps/web/src/components/TaskDependencyGraph.tsx:86-198 | the result is a layout of the graph, or empty when the focal node is missing |
| `DependencyLayout.NoOverlap` | apps/web/src/components/TaskDependencyGraph.tsx:170-189 | no two node rectangles overlap |
| `DependencyLayout.InsideFrame` | apps/web/src/components/TaskDependencyGraph.tsx:161-189 | every rectangle lies inside the padded width and height |
| `DependencyLayout.ColumnsAreCentred` | apps/web/src/components/TaskDependencyGraph.tsx:174-177 | the space above a column equals the space below it; halving loses nothing |
| `DependencyLayout.LaidOutOnce` | apps/web/src/components/TaskDependencyGraph.tsx:146-189 | exactly the assigned nodes are laid out, each once |
| `DependencyLayout.LaidOutData` | apps/web/src/components/TaskDependencyGraph.tsx:178-187 | every laid-out node carries the data of its id and stands in the column of its id |
| `DependencyLayout.ColumnsAreContiguous` | apps/web/src/components/TaskDependencyGraph.tsx:161-168 | every column between the focal one and an occupied one is occupied |
| `DependencyLayout.EdgesHaveBothEnds` | apps/web/src/components/TaskDependencyGraph.tsx:89-194 | the kept edges are exactly those with both ends laid out, with their multiplicity, if and only if the focal node is in the table or there are no edges |
| `DependencyLayout.LayoutIsOrderIndependent` | apps/web/src/components/TaskDependencyGraph.tsx:86-198 | with one node to an id and no equal keys in one column, permuting nodes and edges gives the same list of placed nodes, the same size and the same kept edges up to order |
| `DependencyLayout.GroupByColumn` | apps/web/src/components/TaskDependencyGraph.tsx:146-154 | the lists of the columns and the order in which the columns first occur |
| `DependencyLayout.SortColumns` | apps/web/src/components/TaskDependencyGraph.tsx:155-159 | each list is sorted, the others stay |
| `DependencyLayout.Extents` | apps/web/src/components/TaskDependencyGraph.tsx:161-165 | the outermost columns and the longest list |
| `DependencyLayout.PlaceNodes` | apps/web/src/components/TaskDependencyGraph.tsx:170-189 | every node gets the row and coordinates of its place in its column |
| `LayoutGeometry.ColumnsStandApart` | apps/web/src/components/TaskDependencyGraph.tsx:171-172 | in every layout two nodes stand 270 units apart for each column between them, later columns to the right |
| `LayoutGeometry.RowsStandApart` | apps/web/src/components/TaskDependencyGraph.tsx:176-187 | in one column two nodes stand 80 units apart for each row between them |
| `LayoutGeometry.MarginsAreExact` | apps/web/src/components/TaskDependencyGraph.tsx:161-189 | every rectangle keeps 32 units from the edges, and on each of the four sides some rectangle is exactly that far away |
| `LayoutGeometry.ColumnIsCentred` | apps/web/src/components/TaskDependencyGraph.tsx:175-177 | the top and the bottom node of any column are equally far from the edges |
| `LayoutGeometry.RowsAreNumbered` | apps/web/src/components/TaskDependencyGraph.tsx:178-187 | the rows of a column count from 0 without a gap in the order of the output |
| `LayoutGeometry.OutputIsOrdered` | apps/web/src/components/TaskDependencyGraph.tsx:146-159 | the focal node comes first, columns follow outwards, right side before left, and in a column the keys rise and the nodes go down |
| `LayoutGeometry.LaidOutIsNear` | apps/web/src/components/TaskDependencyGraph.tsx:112-144 | laid out are exactly the focal node, the nodes one to four links ahead, and those one to four links behind that are not ahead |
| `LayoutGeometry.ColumnIsDistance` | apps/web/src/components/TaskDependencyGraph.tsx:112-144 | the column of each laid-out node is its distance ahead, or its negative distance behind |
| `LayoutGeometry.LinksAreEdges` | apps/web/src/components/TaskDependencyGraph.tsx:96-107 | links are exactly the edges with both ends in the table, and the same the other way round behind |
| `LayoutGeometry.LastOfIdCounts` | apps/web/src/components/TaskDependencyGraph.tsx:87-88 | of several nodes with one id the last counts |
| `LayoutGeometry.SuccessorStandsRight` | apps/web/src/components/TaskDependencyGraph.tsx:115-173 | the end of an edge from the focal node stands 270 units to its right |
| `LayoutGeometry.PredecessorStandsLeft` | apps/web/src/components/TaskDependencyGraph.tsx:130-173 | the start of an edge to the focal node stands 270 units to its left unless it is also ahead |
| `LayoutGeometry.TwoNodesAreDrawn` | apps/web/src/components/TaskDependencyGraph.tsx:86-198 | a focal node and its successor are drawn at 32 and 302, in an area of 514 by 120 units |
| `LayoutGeometry.MissingFocalIsEmpty` | apps/web/src/components/TaskDependencyGraph.tsx:89-94 | without the focal node the drawing is empty, 64 by 64 units, and hands on all edges |
| `Sorting.SortSorts` | apps/web/src/components/TaskDependencyGraph.tsx:155-159 | the sort orders any list by any consistent comparison |
| `Sorting.SortIsStable` | apps/web/src/components/TaskDependencyGraph.tsx:155-159 | elements that compare equal keep the order in which they came |
| `ProseMirror.ProseMirrorJsonToMarkdown` | apps/web/src/components/prosemirror-markdown.ts:38-46 | the printed blocks that are not empty, joined by empty lines and trimmed; nothing for a missing document |
| `ProseMirror.ClampLevel` | apps/web/src/components/prosemirror-markdown.ts:164-169 | a heading level between 1 and 6 is rounded down, one outside moves to the nearer end, anything else is 1 |
| `PrinterForms.MarksStandInOrder` | apps/web/src/components/prosemirror-markdown.ts:121-134 | whatever the order of the marks, code stands innermost, then italic, bold and strike, each with its own signs; other marks print nothing |
| `PrinterForms.LinkStandsAround` | apps/web/src/components/prosemirror-markdown.ts:121-141 | the first link stands around all other marks, with its target or an empty one |
| `PrinterForms.InlineForms` | apps/web/src/components/prosemirror-markdown.ts:142-159 | what breaks, mentions of tasks and of users, and images print as, for any attributes |
| `PrinterForms.InlineConcat` | apps/web/src/components/prosemirror-markdown.ts:117-119 | inline nodes print one after the other with nothing between them |
| `PrinterForms.OtherNodesShowContent` | apps/web/src/components/prosemirror-markdown.ts:82-85 | a node of any other kind prints as what is in it |
| `PrinterForms.QuoteIsMarked` | apps/web/src/components/prosemirror-markdown.ts:66-73 | every line of a block quote is a line of its blocks behind the quote sign |
| `PrinterForms.NestedListPrints` | apps/web/src/components/prosemirror-markdown.ts:88-115 | a list in a list item follows its text after an empty line, in a task item on the next line, two blanks further in |
| `PrinterForms.ListItemsPrint` | apps/web/src/components/prosemirror-markdown.ts:56-65 | items print with a dash, with their number from 1 on, or with a box that is ticked when they are checked |
| `PrinterForms.PlainBlocksPrint` | apps/web/src/components/prosemirror-markdown.ts:52-80 | what headings of each level, code blocks and rules print as |
| `PrinterForms.EmptyBlockLeavesNoTrace` | apps/web/src/components/prosemirror-markdown.ts:41-45 | a block that prints as nothing can be left out of the document |
| `PrinterForms.BlocksAreKeptApart` | apps/web/src/components/prosemirror-markdown.ts:41-45 | two blocks are kept apart by one empty line |
| `MarkdownRoundTrip.RoundTrip` | apps/web/src/components/prosemirror-markdown.ts:38-308 | parsing what is printed gives the document back, for every nonempty flat document whose blocks meet their own side condition |
| `MarkdownRoundTrip.DocPrints` | apps/web/src/components/prosemirror-markdown.ts:38-115 | the print of a flat document is its lines with one empty line between blocks, and splits into exactly those |
| `MarkdownRoundTrip.BlockPrints` | apps/web/src/components/prosemirror-markdown.ts:48-115 | the print of each kind of flat block |
| `MarkdownRoundTrip.BlockIsRead` | apps/web/src/components/prosemirror-markdown.ts:176-303 | the lines of a block before an empty line or the end are read as that block in one iteration |
| `MarkdownRoundTrip.DocIsRead` | apps/web/src/components/prosemirror-markdown.ts:173-308 | the lines of a document are read as its blocks |
| `MarkdownLines.ReadTask` | apps/web/src/components/prosemirror-markdown.ts:222-225 | a printed task line is read as its box and its text |
| `MarkdownLines.ReadIsConsistent` | apps/web/src/components/prosemirror-markdown.ts:180-277 | which patterns exclude or include each other on one line |
| `MarkdownPatterns.FencePattern` | apps/web/src/components/prosemirror-markdown.ts:180-181 | a fence is three backticks with anything behind them |
| `MarkdownPatterns.SpacesAre` | apps/web/src/components/prosemirror-markdown.ts:200-281 | blank, tab, line feed and carriage return are white space, the visible characters of ASCII are not |
| `MarkdownPatterns.HeadingPattern` | apps/web/src/components/prosemirror-markdown.ts:200 | a heading is one to six hashes, white space and a text on one line |
| `MarkdownPatterns.RulePattern` | apps/web/src/components/prosemirror-markdown.ts:213 | a rule is three or more dashes, or stars, between white space |
| `MarkdownPatterns.TaskPattern` | apps/web/src/components/prosemirror-markdown.ts:219-225 | a task is a dash behind any indent, a box with a blank or either letter, and a text |
| `MarkdownPatterns.BulletPattern` | apps/web/src/components/prosemirror-markdown.ts:242-246 | a bullet is a dash or a star behind any indent, white space and a text |
| `MarkdownPatterns.NumberedPattern` | apps/web/src/components/prosemirror-markdown.ts:261-265 | a numbered item is a number and a dot behind any indent, white space and a text |
| `MarkdownReading.MarkdownMeansItsBlocks` | apps/web/src/components/prosemirror-markdown.ts:173-308 | the parser returns a document if and only if the lines of the text fall into blocks of the eight kinds, each ending where the next begins, and the document is the one of their nodes |
| `MarkdownReading.BlockIsRead` | apps/web/src/components/prosemirror-markdown.ts:176-303 | one iteration reads exactly one block, whatever follows it that it does not take |
| `MarkdownReading.BlocksAreRead` | apps/web/src/components/prosemirror-markdown.ts:173-308 | lines that fall into blocks are read as these, also without empty lines between them |
| `MarkdownReading.ParagraphIsJoined` | apps/web/src/components/prosemirror-markdown.ts:284-302 | the lines of a paragraph are joined by blanks and none is lost |
| `MarkdownReading.BulletListIsRead` | apps/web/src/components/prosemirror-markdown.ts:242-260 | dashes and stars with any indent and white space make one list of their texts |
| `MarkdownReading.NumberedListIsRead` | apps/web/src/components/prosemirror-markdown.ts:261-279 | numbers of any value make one list of their texts |
| `MarkdownReading.TaskListIsRead` | apps/web/src/components/prosemirror-markdown.ts:219-241 | boxes ticked with either letter make checked items, blank ones open items |
| `MarkdownReading.UnclosedCodeIsRead` | apps/web/src/components/prosemirror-markdown.ts:180-199 | a code block without a closing fence takes the rest of the text |
| `MarkdownReading.BlankTextIsRead` | apps/web/src/components/prosemirror-markdown.ts:281-307 | a text of white space is one empty paragraph without a content list |
| `MarkdownParser.MarkdownToProseMirrorJson` | apps/web/src/components/prosemirror-markdown.ts:173-308 | the loops compute the specified document, and fail to return exactly when the scan runs into a broken task line |
| `MarkdownParser.ScanBlocks` | apps/web/src/components/prosemirror-markdown.ts:176-303 | the outer loop gives the blocks of the lines, or hangs as specified |
| `MarkdownParser.ScanBlock` | apps/web/src/components/prosemirror-markdown.ts:178-302 | one iteration reads the block that the lines begin with |
| `MarkdownParser.ScanTasks` | apps/web/src/components/prosemirror-markdown.ts:221-237 | the task loop takes task lines up to the first that is broken or none |
| `MarkdownParser.ReturnsExactlyWithoutBrokenTasks` | apps/web/src/components/prosemirror-markdown.ts:176-303 | the parser returns on exactly the texts in which one pass over the lines meets no broken task line outside code and bullet runs |
| `MarkdownParser.BrokenTaskIsNotRead` | apps/web/src/components/prosemirror-markdown.ts:219-239 | on a broken task line an iteration reads nothing and pushes an empty list |
| `MarkdownParser.PlainTextParses` | apps/web/src/components/prosemirror-markdown.ts:176-303 | without carriage returns and Unicode line separators the parser returns |
| `MarkdownParser.TaskWithSeparatorHangs` | apps/web/src/components/prosemirror-markdown.ts:219-239 | a task line with such a character in its text makes the parser run for ever |
| `MarkdownParser.CarriageReturnHangs` | apps/web/src/components/prosemirror-markdown.ts:219-239 | a concrete input on which it does |
| `SchedulerLock.HolderIsStored` | apps/api/src/common/scheduling/scheduler-lock.service.ts:39-65 | in every reachable state the store returns a token exactly when the call with that token holds the lock |
| `SchedulerLock.AtMostOneHolder` | apps/api/src/common/scheduling/scheduler-lock.service.ts:65-74 | no two calls hold an unexpired lock on one key |
| `SchedulerLock.HoldIsKept` | apps/api/src/common/scheduling/scheduler-lock.service.ts:36-45 | nothing but time and the holder's own release ends a hold, late releases of others included |
| `SchedulerLock.ReleaseFreesOwnEntryOnly` | apps/api/src/common/scheduling/scheduler-lock.service.ts:39-45 | a release that arrives frees the key if its call held it, and changes nothing if not |
| `SchedulerLock.GrantedExactlyWhenFree` | apps/api/src/common/scheduling/scheduler-lock.service.ts:63-74 | a SET is granted if and only if its time to live is positive and no call holds the key |
| `SchedulerLock.OverlapNeedsOverrun` | apps/api/src/common/scheduling/scheduler-lock.service.ts:27-29 | of two bodies running under one key at least one has outlived its entry |
| `SchedulerLock.BodiesExcludeEachOther` | apps/api/src/common/scheduling/scheduler-lock.service.ts:54-93 | over every run in which no body outlives its entry, no two bodies under one key overlap |
| `SchedulerLock.BodiesCanOverlap` | apps/api/src/common/scheduling/scheduler-lock.service.ts:27-29 | for every time to live there is a run in which two bodies start at the same instant, because the time counts from the store's clock |
| `SchedulerLock.OverrunAllowsOverlap` | apps/api/src/common/scheduling/scheduler-lock.service.ts:27-29 | from every state in which a body has outlived its entry, any new call with any time to live can come to run beside it |
| `SchedulerLock.ExpiryFreesLock` | apps/api/src/common/scheduling/scheduler-lock.service.ts:86-91 | whatever fails, a key is free after the holder's time to live |
| `SchedulerLock.RunningWasGranted` | apps/api/src/common/scheduling/scheduler-lock.service.ts:70-77 | a body runs only on a granted lock, and overruns exactly from its expiry on |
| `SchedulerLock.StepKeepsInv` | apps/api/src/common/scheduling/scheduler-lock.service.ts:54-93 | every step of every replica, the store and the clock keeps the invariant |
| `SchedulerCalls.EndedBodyFreesLock` | apps/api/src/common/scheduling/scheduler-lock.service.ts:75-85 | when a body ends while its call holds the lock, the release goes out and, executed, frees that key at the same instant and no other |
| `SchedulerCalls.ReleaseHandsOver` | apps/api/src/common/scheduling/scheduler-lock.service.ts:54-93 | the next call to ask for the freed key is granted it and runs its body |
| `SchedulerCalls.FreeCallRuns` | apps/api/src/common/scheduling/scheduler-lock.service.ts:54-93 | a call on a free key that ends within its time to live has run and leaves the key free |
| `SchedulerCalls.RefusedCallEnds` | apps/api/src/common/scheduling/scheduler-lock.service.ts:63-74 | a call on a held key is skipped, one without a positive time to live throws, and neither touches the store |
| `SchedulerCalls.FailedReleaseIsHarmless` | apps/api/src/common/scheduling/scheduler-lock.service.ts:86-91 | a release that fails changes neither the result of the body nor the store |
| `SchedulerCalls.ResultTellsReply` | apps/api/src/common/scheduling/scheduler-lock.service.ts:65-93 | over every run, a call that ran was granted the lock and a call that was skipped found it held |
| `SchedulerLock.Cluster.WithLock` | apps/api/src/common/scheduling/scheduler-lock.service.ts:54-65 | the part up to the first await is the specified step |
| `SchedulerLock.Cluster.Set` | apps/api/src/common/scheduling/scheduler-lock.service.ts:65 | the store's SET with NX and PX is the specified step |
| `SchedulerLock.Cluster.Resume` | apps/api/src/common/scheduling/scheduler-lock.service.ts:66-77 | skip, throw or start the body, as specified |
| `SchedulerLock.Cluster.Finally` | apps/api/src/common/scheduling/scheduler-lock.service.ts:78-85 | the release is sent when the body ends |
| `SchedulerLock.Cluster.Release` | apps/api/src/common/scheduling/scheduler-lock.service.ts:39-45 | compare and delete is the specified step |
| `AuthRefresh.OneRefreshAtATime` | apps/web/src/lib/api.ts:12-37 | at most one refresh call is outstanding, and it is the cached one |
| `AuthRefresh.TimerClearsOwnRound` | apps/web/src/lib/api.ts:38-43 | a timer that fires clears the round that set it; no later round has begun |
| `AuthRefresh.PresentedTwiceOnlyAfterRejection` | apps/web/src/lib/api.ts:12-43 | over every run in which issued pairs are fresh, a refresh token is presented again only after a round that presented it was rejected |
| `AuthRefresh.RejectedTokenIsPresentedAgain` | apps/web/src/lib/api.ts:15-43 | after a rejection the same token is presented again, by a concrete run for any token |
| `AuthRefresh.BecomesStuckExactly` | apps/web/src/lib/api.ts:12-14 | a step leads to a cache that is never cleared exactly when a first 401 finds no round and no refresh token |
| `AuthRefresh.RefusedSignInSticks` | apps/web/src/lib/api.ts:12-14 | a client without tokens is stuck by its first 401, such as a refused sign-in |
| `AuthRefresh.SignedInRequestFails` | apps/web/src/lib/api.ts:12-45 | after that, and after a successful sign-in, a request with a 401 fails without a refresh, for any pair of tokens in the store |
| `AuthRefresh.StuckForever` | apps/web/src/lib/api.ts:12-44 | from then on no event begins another round, a new sign-in included |
| `AuthRefresh.ClearsExactlyWhenNotStuck` | apps/web/src/lib/api.ts:38-44 | the cache can be emptied again if and only if the round in it had a refresh token |
| `AuthRefresh.StuckRequestsFail` | apps/web/src/lib/api.ts:12-45 | a request that joins the stuck round never retries |
| `AuthRefresh.SecondFetchUsesSharedToken` | packages/sdk/src/index.ts:63-67 | one fetch or two; the second only after a 401, with the token that the joined round resolved to |
| `AuthRefresh.RetriesExactlyWithToken` | packages/sdk/src/index.ts:63-67 | a finished request has retried if and only if its first answer was 401 and the round gave a token |
| `AuthRefresh.SharersRetryAlike` | apps/web/src/lib/api.ts:12-45 | requests that share a round retry with the same token |
| `AuthRefresh.StepKeepsRounds` | apps/web/src/lib/api.ts:6-47 | every event keeps the invariant on rounds, cache and timers |
| `AuthRefresh.StepKeepsRequests` | packages/sdk/src/index.ts:46-67 | every event keeps the invariant on all requests |
| `AuthHistory.StoreHoldsLastPair` | apps/web/src/lib/api.ts:21-36 | over every run the store holds the last pair that a sign-in or a refresh brought, and nothing after a sign-out or a refusal |
| `AuthHistory.PairStays` | apps/web/src/lib/api.ts:31-36 | what a refresh brought stays in the store until the next event that changes it |
| `AuthHistory.FirstBearerIsStored` | packages/sdk/src/index.ts:46-62 | the first fetch of a request carries the access token that the store held when the request began |
| `AuthHistory.SecondBearerWasBrought` | apps/web/src/lib/api.ts:25-37 | the second fetch carries the access token of the pair that the refresh of the joined round brought |
| `AuthHistory.RoundPresentsStored` | apps/web/src/lib/api.ts:12-19 | a round presents the refresh token that the store held when a first 401 began it |
| `AuthHistory.RoundFailsByEvent` | apps/web/src/lib/api.ts:21-44 | a round with a refresh token gives none only after its refresh was refused, which empties the store, or rejected |
| `AuthRefresh.Client.OnUnauthorized` | apps/web/src/lib/api.ts:11-45 | joins the round in flight or begins one, as specified |
| `AuthRefresh.Client.Receive` | packages/sdk/src/index.ts:63-64 | the part of a request after a response is the specified step |
| `AuthRefresh.Client.Retry` | packages/sdk/src/index.ts:65-66 | the part of a request after the shared round is the specified step |
| `AuthRefresh.Client.Finish` | apps/web/src/lib/api.ts:21-43 | the end of a round updates the token store and sets the timer |
| `AuthRefresh.Client.Clear` | apps/web/src/lib/api.ts:40-42 | the timer empties the cache |
| `SdkRequest.Request` | packages/sdk/src/index.ts:46-92 | at most two fetches with the same body; the second exactly after a 401 with a renewed token and with that token; the outcome is that of the last response |
| `SdkRequest.DoFetch` | packages/sdk/src/index.ts:47-61 | which headers win over which |
| `SdkRequest.Settle` | packages/sdk/src/index.ts:69-91 | error with the parsed or a fallback problem, nothing for an empty body, else the parsed body |
| `Pomodoro.ReachableStates` | apps/web/src/hooks/usePomodoro.ts:160-298 | a state is reachable if and only if it is idle with cycle 0, work in 1 to 4, a short break after 1 to 3 or a long break after 4, with 0 to all seconds left when paused |
| `Pomodoro.RemainingIsBounded` | apps/web/src/hooks/usePomodoro.ts:199-208 | over every run the seconds left stay between 0 and the total |
| `Pomodoro.AnnouncesChanges` | apps/web/src/hooks/usePomodoro.ts:222-298 | every change of phase is announced truly and is an edge of the state graph, except the fall to idle |
| `Pomodoro.AnnouncementsChain` | apps/web/src/hooks/usePomodoro.ts:239-298 | over every run each announcement leaves the phase the one before entered, or idle |
| `Pomodoro.AnnouncementsTraceRun` | apps/web/src/hooks/usePomodoro.ts:239-298 | without reset and switch-off they lead from the first phase to the last without a gap |
| `Pomodoro.ResumeGoesOn` | apps/web/src/hooks/usePomodoro.ts:261-277 | pausing freezes the seconds left and resuming counts down from exactly those |
| `Pomodoro.BreaksLose` | apps/web/src/hooks/usePomodoro.ts:261-277 | whatever the pauses, running time is counted time plus what the pauses threw away |
| `Pomodoro.PausesCostUnderOneSecond` | apps/web/src/hooks/usePomodoro.ts:261-277 | after k pauses before the phase is due, running time exceeds counted time by 0 to 999 k milliseconds |
| `Pomodoro.BreakLoses` | apps/web/src/hooks/usePomodoro.ts:261-277 | a pause loses at most 999 milliseconds if and only if it comes no more than a second after the phase is due |
| `PomodoroPhases.TickEndsDuePhase` | apps/web/src/hooks/usePomodoro.ts:222-243 | a tick ends the running phase, and begins the next at once, if its 25, 5 or 15 minutes have been counted, and else does nothing |
| `PomodoroPhases.PhaseEndsAtFirstDueTick` | apps/web/src/hooks/usePomodoro.ts:216-244 | over any ticks a phase ends at the first one that is due and at no earlier one |
| `PomodoroPhases.RoundTakesItsTime` | apps/web/src/hooks/usePomodoro.ts:89-137 | with ticks on time a round of eight phases takes two hours and ten minutes and leads back to its start |
| `PomodoroPhases.RemainingCountsDown` | apps/web/src/hooks/usePomodoro.ts:199-208 | the seconds shown are the milliseconds left, rounded up, and 0 once the phase is due |
| `PomodoroPhases.ControlsApply` | apps/web/src/hooks/usePomodoro.ts:247-298 | the whole new state of each control where it applies |
| `PomodoroPhases.NothingElseHappens` | apps/web/src/hooks/usePomodoro.ts:189-298 | a control or a tick that does not apply changes nothing |
| `Pomodoro.Hook.Start` | apps/web/src/hooks/usePomodoro.ts:247-259 | new state and announcement as specified |
| `Pomodoro.Hook.Pause` | apps/web/src/hooks/usePomodoro.ts:261-267 | new state as specified |
| `Pomodoro.Hook.Resume` | apps/web/src/hooks/usePomodoro.ts:269-277 | new state as specified |
| `Pomodoro.Hook.Reset` | apps/web/src/hooks/usePomodoro.ts:279-284 | new state as specified, nothing announced |
| `Pomodoro.Hook.Skip` | apps/web/src/hooks/usePomodoro.ts:286-298 | new state and announcement as specified |
| `Pomodoro.Hook.Tick` | apps/web/src/hooks/usePomodoro.ts:216-244 | new state and announcement as specified |
| `Pomodoro.Hook.SetEnabled` | apps/web/src/hooks/usePomodoro.ts:189-196 | switching off stops the timer, nothing announced |
| `EpicAncestors.FindEpicAncestor` | apps/web/src/components/ProjectListView.tsx:138-150 | ends on any parents, cyclic ones too, with the nearest Epic among the task and its ancestors, or none if there is none |
| `EpicAncestors.FindEpicIsNearest` | apps/web/src/components/ProjectListView.tsx:138-150 | the search that passes no task twice misses no Epic |
| `EpicAncestors.FindEpicOfParent` | apps/web/src/components/ProjectListView.tsx:138-150 | a task that is no Epic rolls up to the Epic of its parent |
| `ListView.BuildIndex` | apps/web/src/components/ProjectListView.tsx:129-133 | the table of tasks by id |
| `ListView.ChildrenByParent` | apps/web/src/components/ProjectListView.tsx:114-123 | under each id the filtered tasks with that parent, in order |
| `ListView.Groups` | apps/web/src/components/ProjectListView.tsx:152-196 | the headers in the order of their numbers, a group for each, and under each key the top rows that roll up to it |
| `ListViewRows.EachTaskAppearsOnce` | apps/web/src/components/ProjectListView.tsx:152-288 | where rendering ends, the fully expanded list has exactly one row for every filtered task if and only if no Epic is below a shown task that is none, every shown task's nearest Epic is shown, and no shown task that is no Epic hangs on a cycle of such tasks |
| `ListViewRows.AcyclicTasksAppearOnce` | apps/web/src/components/ProjectListView.tsx:152-288 | with acyclic parents rendering ends and the first two conditions decide |
| `ListViewRows.RowAppears` | apps/web/src/components/ProjectListView.tsx:235-288 | for any expanded rows: a task has one row if it is an Epic or its header and all rows above it are there and open, else none |
| `ListViewRows.RowCount` | apps/web/src/components/ProjectListView.tsx:395-428 | below a row, another is rendered once if the way down to it passes through that row and expanded ones, else not at all |
| `ListViewRows.OneWayDown` | apps/web/src/components/ProjectListView.tsx:167-173 | with the Epics on top, a row has one way down to it |
| `ListViewRows.OnTopHasNoLoop` | apps/web/src/components/ProjectListView.tsx:369-371 | with the Epics on top, rendering ends even on cyclic parents |
| `ListViewRows.NestedEpicAppearsTwice` | apps/web/src/components/ProjectListView.tsx:161-173 | if every task has one row, no Epic is below a shown task that is none |
| `ListViewOrder.RowsStandInPlace` | apps/web/src/components/ProjectListView.tsx:152-288 | every row of the table has a place: sections in the order of the headers and the rows without an Epic last, each header first, each row behind the row above it, and rows with a common parent in the order of the tasks, each with all that is below it |
| `ListViewOrder.HeadersRise` | apps/web/src/components/ProjectListView.tsx:184-192 | the numbers of the headers rise, and headers with one number keep the order of the tasks |
| `ListViewOrder.GroupIsNearestEpic` | apps/web/src/components/ProjectListView.tsx:138-181 | a task is grouped under the nearest Epic above it among all tasks, shown or not |
| `CivilDates.DayNumberIsInjective` | apps/web/src/pages/CalendarPage.tsx:376-377 | different dates have different day numbers |
| `Gregorian.WeekdaysCountFromThursday` | apps/web/src/pages/CalendarPage.tsx:369 | day 0 is the first of January 1970, a Thursday, and weekdays count on from it in the Gregorian calendar |
| `Gregorian.GregorianIsCalendar` | apps/web/src/pages/CalendarPage.tsx:366-378 | Gregorian months follow each other without a gap, over leap years and centuries |
| `KnownDates.DayNumberCountsFromMarch` | apps/web/src/pages/CalendarPage.tsx:366-378 | for every date the day number agrees with a closed count of years that begin in March |
| `KnownDates.MonthHasItsLength` | apps/web/src/pages/CalendarPage.tsx:366-378 | the length of each month, with the leap years of the Gregorian rule |
| `KnownDates.KnownDay` | apps/web/src/pages/CalendarPage.tsx:366-378 | the day number of the leap day of 2024 |
| `KnownDates.KeysHaveWidth` | apps/web/src/pages/CalendarPage.tsx:390-395 | a key is the year, the month from 1 on and the day, the last two with two digits |
| `CalendarPage.DragLands` | apps/web/src/pages/CalendarPage.tsx:144-150 | a drag lands on the target day if and only if the day of the month left after setting the year fits the target month; otherwise on the same day one month later |
| `CalendarPage.DragMissesFebruary` | apps/web/src/pages/CalendarPage.tsx:144-150 | a concrete drag that lands one month late |
| `CalendarPage.DragToLeapDay` | apps/web/src/pages/CalendarPage.tsx:144-150 | which tasks can be dragged to a leap day |
| `CalendarPage.OnDragEnd` | apps/web/src/pages/CalendarPage.tsx:135-151 | where the date ends after the three setters, and when nothing is done |
| `CalendarPage.LocalDate.SetFullYear` | apps/web/src/pages/CalendarPage.tsx:147 | the setter with its overflow |
| `CalendarPage.LocalDate.SetMonth` | apps/web/src/pages/CalendarPage.tsx:148 | the setter with its overflow |
| `CalendarPage.LocalDate.SetDate` | apps/web/src/pages/CalendarPage.tsx:149 | the setter with its overflow |
| `CalendarPage.BuildMonth` | apps/web/src/pages/CalendarPage.tsx:366-388 | six rows of seven cells, cell by cell |
| `CalendarPage.GridIsConsecutive` | apps/web/src/pages/CalendarPage.tsx:369-381 | the cells are consecutive days in every year, and every row begins on a Monday outside the years 0 to 99 |
| `CalendarPage.GridHasMonth` | apps/web/src/pages/CalendarPage.tsx:369-381 | every day of the month is in exactly one of the 42 cells |
| `CalendarPage.FlagsAreExact` | apps/web/src/pages/CalendarPage.tsx:378 | a cell is flagged if and only if it belongs to the month |
| `CalendarPage.GridIsRightExactly` | apps/web/src/pages/CalendarPage.tsx:370 | the grid shows its month exactly outside the years 0 to 99 |
| `CalendarPage.EarlyYearsShowTheirCentury` | apps/web/src/pages/CalendarPage.tsx:370 | for the years 0 to 99 the cells are the days around the same month of 1900 to 1999 |
| `DayKeys.KeyReadsBack` | apps/web/src/pages/CalendarPage.tsx:146 | reading the first three parts of a key gives the date back if and only if its year is not before year 0, and what it gives otherwise |
| `DayKeys.KeysIdentifyDays` | apps/web/src/pages/CalendarPage.tsx:390-395 | two dates of any years have one key if and only if they are equal |
| `WorklogCsv.ExportCsv` | apps/web/src/pages/ProjectWorklogReportPage.tsx:67-83 | a reader after RFC 4180 recovers the exact table from the export, for any names, addresses and cells |
| `WorklogCsv.TableReadsBack` | apps/web/src/pages/ProjectWorklogReportPage.tsx:70-83 | the same for any table whose records have two fields or more |
| `WorklogCsv.FieldReadsBack` | apps/web/src/pages/ProjectWorklogReportPage.tsx:70-73 | an escaped field is read as itself, up to its end and no further |
| `WorklogCsv.EncodeIsInjective` | apps/web/src/pages/ProjectWorklogReportPage.tsx:74-83 | different tables are exported as different texts |
| `WorklogCsv.BareFieldsStand` | apps/web/src/pages/ProjectWorklogReportPage.tsx:70-83 | fields without quotes, commas and line feeds stand as they are, with commas between them |
| `WorklogCsv.SpecialFieldsAreQuoted` | apps/web/src/pages/ProjectWorklogReportPage.tsx:70-73 | a field with one of the three characters stands in quotes, and a quote in it twice |
| `WorklogCsv.RecordsStandOnLines` | apps/web/src/pages/ProjectWorklogReportPage.tsx:74-83 | every record stands on a line of its own |
| `AiCost.RoundingDriftIsBounded` | apps/api/src/modules/ai/ai-cost-tracking.service.ts:80-88 | over n calls the sum of the rounded costs is within n / 2 cents of the exact cost |
| `AiCost.RoundingDriftIsReached` | apps/api/src/modules/ai/ai-cost-tracking.service.ts:30-54 | for every n there are n calls, at the prices of the table, whose rounded costs are off by n / 2 cents |
| `AiCost.HalfCentCall` | apps/api/src/modules/ai/ai-cost-tracking.service.ts:83-88 | a call of 5000 input tokens costs one and a half cents and is recorded as two |
| `AiCost.QueryCosts` | apps/api/src/modules/ai/ai-cost-tracking.service.ts:163-176 | the grouped rows account for every event that counts, for any day, kind and model |
| `AiCost.Summary` | apps/api/src/modules/ai/ai-cost-tracking.service.ts:156-208 | the points of consecutive days and the total spent in the window |
| `AiCost.FoldRows` | apps/api/src/modules/ai/ai-cost-tracking.service.ts:194-205 | the fold adds each row to its day and skips rows off the axis |
| `AiCost.SummaryConserves` | apps/api/src/modules/ai/ai-cost-tracking.service.ts:156-208 | no row is dropped: the day totals sum to what was spent in the window |
| `AiCost.DaysAreWindowExactly` | apps/api/src/modules/ai/ai-cost-tracking.service.ts:145-190 | the summary has one point for each UTC day of the half-open window and no other, if and only if the window is not empty and does not end at midnight, or ends on an earlier day than it starts |
| `AiCost.MidnightAddsDay` | apps/api/src/modules/ai/ai-cost-tracking.service.ts:180-191 | a window of one whole day gets two points |
| `AiCost.EmptyWindowHasDay` | apps/api/src/modules/ai/ai-cost-tracking.service.ts:180-191 | an empty window at noon gets a point |
| `AiCost.PointsAreDays` | apps/api/src/modules/ai/ai-cost-tracking.service.ts:180-205 | the i-th point is the i-th day, with its total and its breakdowns as spent, and both breakdowns sum to the total |
| `AiPrices.CostIsNearestCent` | apps/api/src/modules/ai/ai-cost-tracking.service.ts:83-88 | for every model and all tokens the cost is the number of cents nearest to 300 and 1500 cents a million, or nothing for the local models |
| `AiPrices.MillionsAreExact` | apps/api/src/modules/ai/ai-cost-tracking.service.ts:44-88 | whole millions of tokens cost 300 and 1500 cents each, or nothing |
| `AiPrices.ChargesAddUp` | apps/api/src/modules/ai/ai-cost-tracking.service.ts:83-88 | tokens can be charged in any parts |
| `AiPrices.CallIsSpent` | apps/api/src/modules/ai/ai-cost-tracking.service.ts:163-176 | a call counts with its cents if it succeeded, fell in the half-open window and fits the kind and the model asked for |
| `AiPrices.WindowsAddUp` | apps/api/src/modules/ai/ai-cost-tracking.service.ts:156-176 | two windows that meet spend together what the whole spends |
| `AiPrices.SpentIgnoresOrder` | apps/api/src/modules/ai/ai-cost-tracking.service.ts:163-176 | the order in which calls were recorded plays no part |
| `AiPrices.DayIsUtc` | apps/api/src/modules/ai/ai-cost-tracking.service.ts:180-190 | a day is 86.4 million milliseconds of UTC |

## Left out

- Formulas: numbers are not converted, and error messages carry the offending token instead of prose.
- Characters: text is a sequence of characters, not of UTF-16 code units; only the length limit of formulas counts code units.
- `looseEq` and `isFieldVisible` beside the parser: one body each settles them.
- The tokenizer's and the parser's inner loops stand in methods of their own; the source writes them in place.
- Dependency graph: the key comparison is a parameter, any consistent total one, in place of the locale's.
- Dependency graph: the map of columns is a map and the sequence of its keys in insertion order; both passes share one method that a flag directs.
- `MarkdownRoundTrip.RoundTrip`: marks, images, mentions, nested lists, block quotes and empty blocks are not read back by the parser; `PrinterForms` says what they print as.
- Markdown: patterns are functions on a line in place of regular expressions, tied to the parts of a line by `MarkdownPatterns`; heading levels that are not finite numbers are not modelled.
- `MarkdownParser.MarkdownToProseMirrorJson`: returns nothing where the source runs for ever, because the model's loop stops at an iteration that read nothing.
- Mention extraction and the coarse document diff: simple folds.
- Scheduler lock: metrics, logging and the value that the body returns.
- Scheduler lock: a command that a reconnecting client sends a second time.
- Token refresh: the user record and expiry times beside the tokens, and storage shared with other tabs.
- Typed client: URLs, query strings and the choice of a fetch implementation.
- Pomodoro: handlers see the state of the latest rendering; two clicks within one rendering are not modelled.
- Pomodoro: labels and the formatting of times.
- List view: filters, cells, selection and depth of a row; a header whose key has no number at its end.
- Calendar: time zones and daylight saving time; the month label.
- `CalendarPage.OnDragEnd`: takes the target date in place of the key that names its cell; `DayKeys.KeyReadsBack` is the link.
- CSV: the two-digit formatting of hours is given with the rows; the download itself is input and output.
- Cost: fractions are exact in place of floating point; recording, budgets and the database connection.
- Cost: a day is its number, not its ISO text, which would be ambiguous beyond the year 9999.
- The user interface, the server's framework wiring, environment parsing and input and output in general.
