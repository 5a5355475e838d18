/** Printing a flat document and parsing it back. */
module MarkdownRoundTrip {
  import opened Results
  import opened JsText
  import opened ProseMirror
  import opened MarkdownLines
  import opened MarkdownParser
  import Patterns = MarkdownPatterns
  import Reading = MarkdownReading

  /** The blocks that survive: text without marks, lists of one paragraph each, nothing nested. */
  datatype FlatBlock =
    | Heading(level: nat, title: string)
    | Paragraph(words: string)
    | CodeBlock(lang: string, body: string)
    | Rule
    | BulletList(bullets: seq<string>)
    | OrderedList(entries: seq<string>)
    | TaskList(tasks: seq<(bool, string)>)

  function TaskNodes(tasks: seq<(bool, string)>): seq<PMNode> {
    seq(|tasks|, i requires 0 <= i < |tasks| => TaskNode(tasks[i].0, tasks[i].1))
  }

  function ToNode(b: FlatBlock): PMNode {
    match b
    case Heading(level, title) => HeadingNode(level, title)
    case Paragraph(words) => BlockNode("paragraph", Inline(words))
    case CodeBlock(lang, body) => CodeNode(lang, [body])
    case Rule => BlockNode("horizontalRule", NoContent)
    case BulletList(bullets) => BlockNode("bulletList", Content(Reading.ListedAll(bullets)))
    case OrderedList(entries) => BlockNode("orderedList", Content(Reading.ListedAll(entries)))
    case TaskList(tasks) => BlockNode("taskList", Content(TaskNodes(tasks)))
  }

  function ToNodes(blocks: seq<FlatBlock>): seq<PMNode> {
    if blocks == [] then [] else [ToNode(blocks[0])] + ToNodes(blocks[1..])
  }

  function FlatDoc(blocks: seq<FlatBlock>): PMNode {
    BlockNode("doc", Content(ToNodes(blocks)))
  }

  /** Text that stands on one line, between characters that are not white space. */
  predicate IsPhrase(text: string) {
    text != "" && !IsSpace(text[0]) && !IsSpace(text[|text| - 1]) && '\n' !in text
  }

  predicate ArePhrases(texts: seq<string>) {
    forall i | 0 <= i < |texts| :: IsPhrase(texts[i])
  }

  /** The side conditions. Each block asks only for what its own pattern needs. */
  predicate IsPrintable(b: FlatBlock) {
    match b
    case Heading(level, title) => 1 <= level <= 6 && IsPhrase(title) && OnOneLine(title)
    case Paragraph(words) =>
      IsPhrase(words) && FenceOf(words).None? && HeadingOf(words).None? && !IsRule(words) &&
      BulletOf(words).None? && NumberedOf(words).None?
    case CodeBlock(lang, body) =>
      Trim(lang) == lang && '\n' !in lang && forall l <- Split(body) :: FenceOf(l).None?
    case Rule => true
    case BulletList(bullets) =>
      bullets != [] && ArePhrases(bullets) && BoxOf(bullets[0]).None?
    case OrderedList(entries) => entries != [] && ArePhrases(entries)
    case TaskList(tasks) => tasks != [] && forall t <- tasks :: IsPhrase(t.1) && OnOneLine(t.1)
  }

  ghost predicate ArePrintable(blocks: seq<FlatBlock>) {
    forall i | 0 <= i < |blocks| :: IsPrintable(blocks[i])
  }

  // ---------- The lines of a block ----------

  function BulletLines(bullets: seq<string>): seq<string> {
    if bullets == [] then [] else ["- " + bullets[0]] + BulletLines(bullets[1..])
  }

  function OrderedLines(entries: seq<string>, index: nat): seq<string> {
    if entries == [] then []
    else [Decimal(index + 1) + ". " + entries[0]] + OrderedLines(entries[1..], index + 1)
  }

  function TaskLine(task: (bool, string)): string {
    "- [" + [BoxChar(task.0)] + "] " + task.1
  }

  function TaskLines(tasks: seq<(bool, string)>): seq<string> {
    if tasks == [] then [] else [TaskLine(tasks[0])] + TaskLines(tasks[1..])
  }

  function BlockLines(b: FlatBlock): seq<string> {
    match b
    case Heading(level, title) => [Repeat("#", level) + " " + title]
    case Paragraph(words) => [words]
    case CodeBlock(lang, body) => ["```" + lang] + Split(body) + ["```"]
    case Rule => ["---"]
    case BulletList(bullets) => BulletLines(bullets)
    case OrderedList(entries) => OrderedLines(entries, 0)
    case TaskList(tasks) => TaskLines(tasks)
  }

  /** The lines of a document: its blocks with one empty line between them. */
  function DocLines(blocks: seq<FlatBlock>): seq<string> {
    if blocks == [] then []
    else if |blocks| == 1 then BlockLines(blocks[0])
    else BlockLines(blocks[0]) + [""] + DocLines(blocks[1..])
  }

  // ---------- Printing gives those lines ----------

  lemma InlineIsText(text: string)
    ensures RenderInline(Inline(text)) == text
  {
    if text != "" {
      var node := TextNode(text);
      assert RenderInlineNode(node) == RenderText(node) == text;
      assert RenderInlineNodes([node]) == text + RenderInlineNodes([]);
    }
  }

  lemma ItemIsText(text: string, depth: nat)
    ensures Join(RenderEach(ItemParts(true), ItemNode(text).content, depth), "\n") == text
    ensures Join(RenderEach(TaskParts, ItemNode(text).content, depth), "\n") == text
  {
    InlineIsText(text);
    var p := BlockNode("paragraph", Inline(text));
    assert RenderNodes(ItemParts(true), [p], depth) == [text] + RenderNodes(ItemParts(false), [], depth);
    assert RenderNodes(TaskParts, [p], depth) == [text] + RenderNodes(TaskParts, [], depth);
  }

  lemma {:induction false} BulletsPrint(bullets: seq<string>)
    ensures RenderNodes(Bullets, Reading.ListedAll(bullets), 0) == BulletLines(bullets)
  {
    if bullets != [] {
      BulletsPrint(bullets[1..]);
      assert Reading.ListedAll(bullets)[1..] == Reading.ListedAll(bullets[1..]);
      ItemIsText(bullets[0], 0);
      assert RenderListItem(ItemNode(bullets[0]), 0, "-") == "- " + bullets[0];
    }
  }

  lemma {:induction false} EntriesPrint(entries: seq<string>, index: nat)
    ensures RenderNodes(Numbered(index), Reading.ListedAll(entries), 0) == OrderedLines(entries, index)
  {
    if entries != [] {
      EntriesPrint(entries[1..], index + 1);
      assert Reading.ListedAll(entries)[1..] == Reading.ListedAll(entries[1..]);
      ItemIsText(entries[0], 0);
      var marker := Decimal(index + 1) + ".";
      assert RenderListItem(ItemNode(entries[0]), 0, marker) == marker + " " + entries[0];
      assert marker + " " + entries[0] == Decimal(index + 1) + ". " + entries[0];
    }
  }

  lemma TaskPrints(task: (bool, string))
    ensures RenderTaskItem(TaskNode(task.0, task.1), 0) == TaskLine(task)
  {
    ItemIsText(task.1, 0);
    var node := TaskNode(task.0, task.1);
    assert node.content == ItemNode(task.1).content;
    assert node.Attr("checked") == Some(Flag(task.0));
  }

  lemma {:induction false} TasksPrint(tasks: seq<(bool, string)>)
    ensures RenderNodes(Tasks, TaskNodes(tasks), 0) == TaskLines(tasks)
  {
    if tasks != [] {
      TasksPrint(tasks[1..]);
      assert TaskNodes(tasks)[1..] == TaskNodes(tasks[1..]);
      TaskPrints(tasks[0]);
    }
  }

  lemma FencedLines(open: string, body: seq<string>, close: string)
    requires body != []
    ensures Join([open] + body + [close], "\n") == open + "\n" + Join(body, "\n") + "\n" + close
  {
    JoinConcat(body, [close], "\n");
    JoinConcat([open], body + [close], "\n");
    assert [open] + (body + [close]) == [open] + body + [close];
  }

  lemma CodePrints(lang: string, body: string)
    ensures RenderBlock(CodeNode(lang, [body]), 0) == Join(["```" + lang] + Split(body) + ["```"], "\n")
  {
    CodeRenders(lang, body);
    JoinSplit(body);
    FencedLines("```" + lang, Split(body), "```");
    Regrouped("```" + lang + "\n" + body, "\n", "```");
  }

  lemma Regrouped(a: string, b: string, c: string)
    ensures a + (b + c) == a + b + c
  {}

  lemma CodeRenders(lang: string, body: string)
    ensures RenderBlock(CodeNode(lang, [body]), 0) == "```" + lang + "\n" + body + ("\n" + "```")
  {
    var node := CodeNode(lang, [body]);
    assert node.TextAttr("language") == lang;
    OneRawText(body);
    assert "\n```" == "\n" + "```";
  }

  lemma OneRawText(body: string)
    ensures RawText([TextNode(body)]) == body
  {}

  lemma BlockPrints(b: FlatBlock)
    requires b.Heading? ==> 1 <= b.level <= 6
    ensures RenderBlock(ToNode(b), 0) == Join(BlockLines(b), "\n")
  {
    match b
    case Heading(level, title) =>
      InlineIsText(title);
      assert (level as real).Floor == level;
    case Paragraph(words) => InlineIsText(words);
    case CodeBlock(lang, body) => CodePrints(lang, body);
    case Rule =>
    case BulletList(bullets) => BulletsPrint(bullets);
    case OrderedList(entries) => EntriesPrint(entries, 0);
    case TaskList(tasks) => TasksPrint(tasks);
  }

  predicate StartsSolid(s: string) {
    s != "" && !IsSpace(s[0])
  }

  predicate EndsSolid(s: string) {
    s != "" && !IsSpace(s[|s| - 1])
  }

  /** Lines without line feeds, the first of which starts and the last of which ends in a character
    * that trimming keeps. */
  ghost predicate AreSolid(lines: seq<string>) {
    && lines != [] && StartsSolid(lines[0]) && EndsSolid(lines[|lines| - 1])
    && forall l <- lines :: '\n' !in l
  }

  lemma {:induction false} RepeatHash(n: nat)
    ensures |Repeat("#", n)| == n && forall c <- Repeat("#", n) :: c == '#'
  {
    if n > 0 {
      RepeatHash(n - 1);
    }
  }

  lemma {:induction false} BulletsSolid(bullets: seq<string>)
    requires bullets != [] && ArePhrases(bullets)
    ensures AreSolid(BulletLines(bullets))
  {
    var rest := bullets[1..];
    assert bullets[0] in bullets && ArePhrases(rest);
    if rest != [] {
      BulletsSolid(rest);
    }
  }

  lemma {:induction false} EntriesSolid(entries: seq<string>, index: nat)
    requires entries != [] && ArePhrases(entries)
    ensures AreSolid(OrderedLines(entries, index))
  {
    var rest := entries[1..];
    assert entries[0] in entries && ArePhrases(rest);
    var d := Decimal(index + 1);
    DecimalIsDigits(index + 1);
    assert d[0] in d && '\n' !in d;
    if rest != [] {
      EntriesSolid(rest, index + 1);
    }
  }

  lemma {:induction false} TasksSolid(tasks: seq<(bool, string)>)
    requires tasks != [] && forall t <- tasks :: IsPhrase(t.1)
    ensures AreSolid(TaskLines(tasks))
  {
    var rest := tasks[1..];
    assert tasks[0] in tasks && (forall t <- rest :: t in tasks);
    if rest != [] {
      TasksSolid(rest);
    }
  }

  lemma HeadingSolid(level: nat, title: string)
    requires level > 0 && IsPhrase(title)
    ensures AreSolid([Repeat("#", level) + " " + title])
  {
    RepeatHash(level);
    var h := Repeat("#", level);
    assert h[0] in h;
  }

  lemma CodeSolid(lang: string, body: string)
    requires '\n' !in lang
    ensures AreSolid(["```" + lang] + Split(body) + ["```"])
  {
    JoinSplit(body);
  }

  /** What the lines of a block need in order to be kept apart. */
  predicate IsStackable(b: FlatBlock) {
    match b
    case Heading(level, title) => 1 <= level <= 6 && IsPhrase(title)
    case Paragraph(words) => IsPhrase(words)
    case CodeBlock(lang, _) => '\n' !in lang
    case Rule => true
    case BulletList(bullets) => bullets != [] && ArePhrases(bullets)
    case OrderedList(entries) => entries != [] && ArePhrases(entries)
    case TaskList(tasks) => tasks != [] && forall t <- tasks :: IsPhrase(t.1)
  }

  lemma PrintableIsStackable(b: FlatBlock)
    requires IsPrintable(b)
    ensures IsStackable(b)
  {}

  lemma BlockSolid(b: FlatBlock)
    requires IsStackable(b)
    ensures AreSolid(BlockLines(b))
  {
    match b
    case Heading(level, title) => HeadingSolid(level, title);
    case Paragraph(words) =>
    case CodeBlock(lang, body) => CodeSolid(lang, body);
    case Rule =>
    case BulletList(bullets) => BulletsSolid(bullets);
    case OrderedList(entries) => EntriesSolid(entries, 0);
    case TaskList(tasks) => TasksSolid(tasks);
  }

  lemma {:induction false} DocSolid(blocks: seq<FlatBlock>)
    requires blocks != [] && ArePrintable(blocks)
    ensures AreSolid(DocLines(blocks))
  {
    PrintableIsStackable(blocks[0]);
    BlockSolid(blocks[0]);
    if |blocks| > 1 {
      DocSolid(blocks[1..]);
      StackSolid(BlockLines(blocks[0]), DocLines(blocks[1..]));
    }
  }

  lemma StackSolid(a: seq<string>, b: seq<string>)
    requires AreSolid(a) && AreSolid(b)
    ensures AreSolid(a + [""] + b)
  {}

  lemma {:induction false} JoinSolid(lines: seq<string>)
    requires lines != []
    ensures StartsSolid(lines[0]) ==> StartsSolid(Join(lines, "\n"))
    ensures EndsSolid(lines[|lines| - 1]) ==> EndsSolid(Join(lines, "\n"))
  {
    if |lines| > 1 {
      JoinSolid(lines[1..]);
    }
  }

  lemma FirstTopBlock(blocks: seq<FlatBlock>)
    requires blocks != [] && IsPrintable(blocks[0])
    ensures TopBlocks(ToNodes(blocks)) == [Join(BlockLines(blocks[0]), "\n")] + TopBlocks(ToNodes(blocks[1..]))
  {
    var md := Join(BlockLines(blocks[0]), "\n");
    PrintableIsStackable(blocks[0]);
    BlockPrints(blocks[0]);
    BlockSolid(blocks[0]);
    JoinSolid(BlockLines(blocks[0]));
    NodesStep(ToNode(blocks[0]), ToNodes(blocks[1..]));
  }

  lemma NodesStep(node: PMNode, rest: seq<PMNode>)
    requires RenderBlock(node, 0) != ""
    ensures TopBlocks([node] + rest) == [RenderBlock(node, 0)] + TopBlocks(rest)
  {
    assert ([node] + rest)[1..] == rest;
    var md := RenderBlock(node, 0);
    assert RenderNodes(Blocks, [node] + rest, 0) == [md] + RenderNodes(Blocks, rest, 0);
    assert ([md] + RenderNodes(Blocks, rest, 0))[1..] == RenderNodes(Blocks, rest, 0);
  }

  lemma {:induction false} TopBlocksAre(blocks: seq<FlatBlock>)
    requires blocks != [] && ArePrintable(blocks)
    ensures TopBlocks(ToNodes(blocks)) != []
    ensures Join(TopBlocks(ToNodes(blocks)), "\n\n") == Join(DocLines(blocks), "\n")
  {
    var rest := blocks[1..];
    FirstTopBlock(blocks);
    if rest == [] {
      assert TopBlocks(ToNodes(rest)) == [];
    } else {
      TopBlocksAre(rest);
      PrintableIsStackable(blocks[0]);
      BlockSolid(blocks[0]);
      DocSolid(rest);
      Interleave(BlockLines(blocks[0]), TopBlocks(ToNodes(rest)), DocLines(rest));
    }
  }

  lemma Interleave(lines: seq<string>, others: seq<string>, otherLines: seq<string>)
    requires lines != [] && others != [] && otherLines != []
    requires Join(others, "\n\n") == Join(otherLines, "\n")
    ensures Join([Join(lines, "\n")] + others, "\n\n") == Join(lines + [""] + otherLines, "\n")
  {
    JoinConcat([Join(lines, "\n")], others, "\n\n");
    JoinConcat(lines, [""], "\n");
    JoinConcat(lines + [""], otherLines, "\n");
  }

  lemma SolidText(lines: seq<string>)
    requires AreSolid(lines)
    ensures Trim(Join(lines, "\n")) == Join(lines, "\n") && Split(Join(lines, "\n")) == lines
  {
    JoinSolid(lines);
    TrimmedAlready(Join(lines, "\n"));
    SplitJoin(lines);
  }

  lemma PrintedIs(nodes: seq<PMNode>, text: string)
    requires Join(TopBlocks(nodes), "\n\n") == text && Trim(text) == text
    ensures PrintNodes(nodes) == text
  {}

  /** The printed document is its lines joined by line feeds. */
  lemma DocPrints(blocks: seq<FlatBlock>)
    requires blocks != [] && ArePrintable(blocks)
    ensures ToMarkdown(FlatDoc(blocks)) == Join(DocLines(blocks), "\n")
    ensures Split(ToMarkdown(FlatDoc(blocks))) == DocLines(blocks)
  {
    TopBlocksAre(blocks);
    DocSolid(blocks);
    SolidText(DocLines(blocks));
    PrintedIs(ToNodes(blocks), Join(DocLines(blocks), "\n"));
    assert FlatDoc(blocks).Children() == ToNodes(blocks);
  }

  // ---------- Those lines are read back as the block ----------

  /** A block ends with the document or before an empty line. */
  predicate Ends(tail: seq<string>) {
    tail == [] || tail[0] == ""
  }

  /** A line at which every list and paragraph ends. */
  predicate IsBlankLine(l: Line) {
    && l.blank && l.task.None? && l.bullet.None? && l.numbered.None?
    && l.fence.None? && l.heading.None? && !l.rule
  }

  lemma EmptyHasNoMark(s: string)
    requires |s| == 0
    ensures TaskOf(s).None? && BulletOf(s).None? && NumberedOf(s).None?
  {
    assert |TrimStart(s)| == 0;
  }

  lemma EmptyIsBlank(s: string)
    requires |s| == 0
    ensures Trim(s) == "" && !IsRule(s) && FenceOf(s).None? && HeadingOf(s).None?
  {
    assert |Trim(s)| == 0;
  }

  lemma ReadEmpty()
    ensures IsBlankLine(Read(""))
  {
    EmptyHasNoMark("");
    EmptyIsBlank("");
  }

  lemma ReadHeading(level: nat, title: string)
    requires 1 <= level <= 6 && IsPhrase(title) && OnOneLine(title)
    ensures var line := Repeat("#", level) + " " + title; FenceOf(line).None? && HeadingOf(line) == Some((level, title))
  {
    var hashes := Repeat("#", level);
    RepeatHash(level);
    assert forall i | 0 <= i < |hashes| :: hashes[i] in hashes;
    Patterns.HeadingIs(hashes + " " + title, hashes, " ", title);
    FenceOrHashFirst(hashes + " " + title);
  }

  lemma DashesAreRule(line: string)
    requires |line| >= 3 && forall c <- line :: c == '-'
    ensures FenceOf(line).None? && HeadingOf(line).None? && IsRule(line)
  {
    assert line[0] in line && line[|line| - 1] in line;
    FenceOrHashFirst(line);
    TrimmedAlready(line);
  }

  lemma ReadBullet(text: string)
    requires IsPhrase(text)
    ensures var line := "- " + text;
            BulletOf(line) == Some(text) && (BoxOf(text).None? ==> TaskOf(line).None?)
  {
    assert "- " + text == ['-'] + " " + text;
    MarkThenText('-', text);
  }

  lemma ReadNumbered(n: nat, text: string)
    requires IsPhrase(text)
    ensures var line := Decimal(n) + ". " + text;
            NumberedOf(line) == Some(text) && HeadingOf(line).None? && !IsRule(line)
  {
    DecimalIsDigits(n);
    ReadDigits(Decimal(n), text);
  }

  lemma ReadDigits(d: string, text: string)
    requires d != "" && (forall c <- d :: '0' <= c <= '9') && IsPhrase(text)
    ensures var line := d + ". " + text;
            NumberedOf(line) == Some(text) && HeadingOf(line).None? && !IsRule(line)
  {
    var line := d + ". " + text;
    SolidLine(d, text);
    StartsWithDigit(line);
    DigitsThenText(d, text);
  }

  lemma DigitsThenText(d: string, text: string)
    requires d != "" && (forall c <- d :: '0' <= c <= '9') && IsPhrase(text)
    ensures NumberedOf(d + ". " + text) == Some(text)
  {
    DigitsByIndex(d);
    assert d + ". " + text == "" + (d + ".") + " " + text;
    Patterns.NumberedIs(d + ". " + text, "", d, " ", text);
  }

  lemma DigitsByIndex(d: string)
    requires forall c <- d :: '0' <= c <= '9'
    ensures Patterns.AreDigits(d)
  {
    assert forall i | 0 <= i < |d| :: d[i] in d;
  }

  lemma SolidLine(d: string, text: string)
    requires d != "" && (forall c <- d :: '0' <= c <= '9') && IsPhrase(text)
    ensures var line := d + ". " + text; '0' <= line[0] <= '9' && EndsSolid(line)
  {
    assert d[0] in d;
  }

  lemma StartsWithDigit(line: string)
    requires line != "" && '0' <= line[0] <= '9' && EndsSolid(line)
    ensures TrimStart(line) == line && HeadingOf(line).None? && !IsRule(line)
  {
    FenceOrHashFirst(line);
    TrimmedAlready(line);
    DigitIsNoRule(line);
  }

  lemma DigitIsNoRule(line: string)
    requires line != "" && '0' <= line[0] <= '9' && Trim(line) == line
    ensures !IsRule(line)
  {
    assert line[0] in line;
  }

  function BoxChar(done: bool): char {
    if done then 'x' else ' '
  }

  lemma {:induction false} TasksAreTaken(lines: seq<Line>, tasks: seq<(bool, string)>, tail: seq<Line>)
    requires |lines| == |tasks|
    requires forall i | 0 <= i < |lines| ::
               lines[i].task == Some((BoxChar(tasks[i].0), tasks[i].1)) && !lines[i].IsBrokenTask()
    requires tail == [] || tail[0].task.None?
    ensures TakeTasks(lines + tail) == (TaskNodes(tasks), tail)
  {
    if lines == [] {
      assert lines + tail == tail;
    } else {
      assert (lines + tail)[1..] == lines[1..] + tail;
      TasksAreTaken(lines[1..], tasks[1..], tail);
      assert TaskNodes(tasks) == [TaskNode(tasks[0].0, tasks[0].1)] + TaskNodes(tasks[1..]);
    }
  }

  lemma {:induction false} BulletLineAt(bullets: seq<string>, i: nat)
    requires i < |bullets|
    ensures |BulletLines(bullets)| == |bullets| && BulletLines(bullets)[i] == "- " + bullets[i]
    decreases bullets
  {
    if |bullets| > 1 {
      BulletLineAt(bullets[1..], if i > 0 then i - 1 else 0);
    }
  }

  lemma {:induction false} OrderedLineAt(entries: seq<string>, index: nat, i: nat)
    requires i < |entries|
    ensures |OrderedLines(entries, index)| == |entries|
    ensures OrderedLines(entries, index)[i] == Decimal(index + i + 1) + ". " + entries[i]
    decreases entries
  {
    if |entries| > 1 {
      OrderedLineAt(entries[1..], index + 1, if i > 0 then i - 1 else 0);
    }
  }

  lemma {:induction false} TaskLineAt(tasks: seq<(bool, string)>, i: nat)
    requires i < |tasks|
    ensures |TaskLines(tasks)| == |tasks| && TaskLines(tasks)[i] == TaskLine(tasks[i])
    decreases tasks
  {
    if |tasks| > 1 {
      TaskLineAt(tasks[1..], if i > 0 then i - 1 else 0);
    }
  }

  lemma TailReads(tail: seq<string>)
    requires Ends(tail)
    ensures tail != [] ==> ReadAll(tail) != [] && IsBlankLine(ReadAll(tail)[0])
  {
    if tail != [] {
      ReadEmpty();
      ReadAt(Read, tail, 0);
    }
  }

  lemma BulletListIsRead(bullets: seq<string>, tail: seq<string>)
    requires IsPrintable(BulletList(bullets)) && Ends(tail)
    ensures ParseStep(ReadAll(BulletLines(bullets) + tail)) == ([ToNode(BulletList(bullets))], ReadAll(tail))
  {
    var lines := ReadAll(BulletLines(bullets));
    forall i | 0 <= i < |bullets| ensures |lines| == |bullets| && ReadsAsBullet(lines[i], bullets[i]) {
      BulletLineAt(bullets, i);
      ReadAt(Read, BulletLines(bullets), i);
      BulletReads(BulletLines(bullets)[i], bullets[i]);
    }
    assert ReadsAsBullet(lines[0], bullets[0]);
    ReadAppend(Read, BulletLines(bullets), tail);
    TailReads(tail);
    BulletRunIsRead(lines, bullets, ReadAll(tail));
  }

  lemma BulletRunIsRead(lines: seq<Line>, texts: seq<string>, tail: seq<Line>)
    requires 0 < |lines| == |texts| && forall i | 0 <= i < |lines| :: ReadsAsBullet(lines[i], texts[i])
    requires lines[0].task.None? && (tail == [] || tail[0].bullet.None?)
    ensures ParseStep(lines + tail) == ([BlockNode("bulletList", Content(Reading.ListedAll(texts)))], tail)
  {
    assert ReadsAsBullet(lines[0], texts[0]);
    Reading.BulletsTaken(lines, tail);
    Reading.BulletsAreListed(lines, texts);
  }

  predicate ReadsAsBullet(l: Line, text: string) {
    l.bullet == Some(text) && l.IsConsistent() && (BoxOf(text).None? ==> l.task.None?)
  }

  lemma BulletReads(line: string, text: string)
    requires line == "- " + text && IsPhrase(text)
    ensures ReadsAsBullet(Read(line), text)
  {
    ReadBullet(text);
    ReadIsConsistent(line);
  }

  lemma OrderedListIsRead(entries: seq<string>, tail: seq<string>)
    requires IsPrintable(OrderedList(entries)) && Ends(tail)
    ensures ParseStep(ReadAll(OrderedLines(entries, 0) + tail)) == ([ToNode(OrderedList(entries))], ReadAll(tail))
  {
    var lines := ReadAll(OrderedLines(entries, 0));
    forall i | 0 <= i < |entries| ensures |lines| == |entries| && ReadsAsEntry(lines[i], entries[i]) {
      OrderedLineReads(entries, i);
    }
    assert ReadsAsEntry(lines[0], entries[0]);
    ReadAppend(Read, OrderedLines(entries, 0), tail);
    TailReads(tail);
    OrderedRunIsRead(lines, entries, ReadAll(tail));
  }

  predicate ReadsAsEntry(l: Line, text: string) {
    l.numbered == Some(text) && l.IsConsistent() && l.heading.None? && !l.rule
  }

  lemma OrderedLineReads(entries: seq<string>, i: nat)
    requires i < |entries| && ArePhrases(entries)
    ensures var lines := ReadAll(OrderedLines(entries, 0)); |lines| == |entries| && ReadsAsEntry(lines[i], entries[i])
  {
    var raws := OrderedLines(entries, 0);
    OrderedLineAt(entries, 0, i);
    EntryReads(raws[i], i + 1, entries[i]);
    EntryIsAt(Read, raws, i, entries[i]);
  }

  lemma EntryIsAt(read: Reader, raws: seq<string>, i: nat, text: string)
    requires i < |raws| && ReadsAsEntry(read(raws[i]), text)
    ensures ReadsAsEntry(ReadWith(read, raws)[i], text)
  {
    ReadAt(read, raws, i);
  }

  lemma EntryReads(line: string, n: nat, text: string)
    requires line == Decimal(n) + ". " + text && IsPhrase(text)
    ensures ReadsAsEntry(Read(line), text)
  {
    ReadNumbered(n, text);
    ReadIsConsistent(line);
  }

  lemma OrderedRunIsRead(lines: seq<Line>, texts: seq<string>, tail: seq<Line>)
    requires 0 < |lines| == |texts| && forall i | 0 <= i < |lines| :: ReadsAsEntry(lines[i], texts[i])
    requires tail == [] || tail[0].numbered.None?
    ensures ParseStep(lines + tail) == ([BlockNode("orderedList", Content(Reading.ListedAll(texts)))], tail)
  {
    assert ReadsAsEntry(lines[0], texts[0]);
    Reading.NumbersTaken(lines, tail);
    Reading.NumbersAreListed(lines, texts);
  }

  lemma TaskListIsRead(tasks: seq<(bool, string)>, tail: seq<string>)
    requires IsPrintable(TaskList(tasks)) && Ends(tail)
    ensures ParseStep(ReadAll(TaskLines(tasks) + tail)) == ([ToNode(TaskList(tasks))], ReadAll(tail))
  {
    var lines := ReadAll(TaskLines(tasks));
    forall i | 0 <= i < |tasks| ensures |lines| == |tasks| && ReadsAsTask(lines[i], tasks[i]) {
      TaskLineAt(tasks, i);
      ReadAt(Read, TaskLines(tasks), i);
      assert tasks[i] in tasks;
      TaskReads(TaskLines(tasks)[i], tasks[i]);
    }
    ReadAppend(Read, TaskLines(tasks), tail);
    TailReads(tail);
    TaskRunIsRead(lines, tasks, ReadAll(tail));
  }

  lemma TaskRunIsRead(lines: seq<Line>, tasks: seq<(bool, string)>, tail: seq<Line>)
    requires 0 < |lines| == |tasks| && forall i | 0 <= i < |lines| :: ReadsAsTask(lines[i], tasks[i])
    requires tail == [] || tail[0].task.None?
    ensures ParseStep(lines + tail) == ([BlockNode("taskList", Content(TaskNodes(tasks)))], tail)
  {
    assert ReadsAsTask(lines[0], tasks[0]);
    TasksAreTaken(lines, tasks, tail);
  }

  predicate ReadsAsTask(l: Line, task: (bool, string)) {
    l.task == Some((BoxChar(task.0), task.1)) && l.IsConsistent() && !l.IsBrokenTask()
  }

  lemma TaskReads(line: string, task: (bool, string))
    requires line == TaskLine(task) && IsPhrase(task.1) && OnOneLine(task.1)
    ensures ReadsAsTask(Read(line), task)
  {
    ReadTask(BoxChar(task.0), task.1);
    ReadIsConsistent(line);
  }

  lemma CodeIsRead(lang: string, body: string, tail: seq<string>)
    requires Trim(lang) == lang && forall l <- Split(body) :: FenceOf(l).None?
    ensures ParseStep(ReadAll(["```" + lang] + Split(body) + ["```"] + tail))
            == ([CodeNode(lang, [body])], ReadAll(tail))
  {
    var open := "```" + lang;
    CodeBodyIsRead(Split(body), tail);
    ReadFence(lang);
    SameCode(lang, body);
    OpenReads(Read, open, Split(body), "```", tail);
    Reading.FenceStep(Read(open), ReadAll(Split(body) + ["```"] + tail));
  }

  lemma OpenReads(read: Reader, open: string, inner: seq<string>, close: string, tail: seq<string>)
    ensures ReadWith(read, [open] + inner + [close] + tail) == [read(open)] + ReadWith(read, inner + [close] + tail)
  {
    var rest := inner + [close] + tail;
    assert [open] + inner + [close] + tail == [open] + rest;
    ReadCons(read, open, rest);
  }

  lemma SameCode(lang: string, body: string)
    ensures CodeNode(lang, Split(body)) == CodeNode(lang, [body])
  {
    JoinSplit(body);
  }

  lemma ReadFence(lang: string)
    ensures Read("```" + lang).fence == Some(lang)
  {}

  lemma CodeBodyIsRead(body: seq<string>, tail: seq<string>)
    requires forall l <- body :: FenceOf(l).None?
    ensures TakeCode(ReadAll(body + ["```"] + tail)) == (body, ReadAll(tail))
  {
    var close := "```";
    forall i | 0 <= i < |body| ensures ReadAll(body)[i].fence.None? {
      assert body[i] in body;
      ReadAt(Read, body, i);
    }
    ReadFence("");
    assert close + "" == close;
    Reading.TextsOfRead(body);
    ClosedIsRead(Read, body, close, tail);
  }

  lemma ClosedIsRead(read: Reader, body: seq<string>, close: string, tail: seq<string>)
    requires forall i | 0 <= i < |body| :: ReadWith(read, body)[i].fence.None?
    requires read(close).fence.Some? && Reading.Texts(ReadWith(read, body)) == body
    ensures TakeCode(ReadWith(read, body + [close] + tail)) == (body, ReadWith(read, tail))
  {
    var inner := ReadWith(read, body);
    ReadAppend(read, body, [close] + tail);
    ReadCons(read, close, tail);
    Reading.CodeTaken(inner, [read(close)] + ReadWith(read, tail));
    assert inner + [read(close)] + ReadWith(read, tail) == inner + ([read(close)] + ReadWith(read, tail));
    assert body + [close] + tail == body + ([close] + tail);
  }

  lemma ParagraphIsRead(words: string, tail: seq<string>)
    requires IsPrintable(Paragraph(words)) && Ends(tail)
    ensures ParseStep(ReadAll([words] + tail)) == ([BlockNode("paragraph", Inline(words))], ReadAll(tail))
  {
    ReadCons(Read, words, tail);
    TailReads(tail);
    ReadParagraph(words);
    Reading.ProseStep(Read(words), ReadAll(tail));
  }

  lemma ReadParagraph(words: string)
    requires IsPrintable(Paragraph(words))
    ensures Reading.StartsProse(Read(words))
  {}

  lemma HeadingIsRead(level: nat, title: string, tail: seq<string>)
    requires IsPrintable(Heading(level, title))
    ensures ParseStep(ReadAll([Repeat("#", level) + " " + title] + tail))
            == ([HeadingNode(level, title)], ReadAll(tail))
  {
    ReadHeading(level, title);
    TrimmedAlready(title);
    ReadCons(Read, Repeat("#", level) + " " + title, tail);
  }

  lemma RuleIsRead(tail: seq<string>)
    ensures ParseStep(ReadAll(["---"] + tail)) == ([BlockNode("horizontalRule", NoContent)], ReadAll(tail))
  {
    var dashes := "---";
    assert forall c <- dashes :: c == '-';
    DashesAreRule(dashes);
    ReadCons(Read, dashes, tail);
  }

  lemma BlockIsRead(b: FlatBlock, tail: seq<string>)
    requires IsPrintable(b) && Ends(tail)
    ensures ParseStep(ReadAll(BlockLines(b) + tail)) == ([ToNode(b)], ReadAll(tail))
  {
    match b
    case Heading(level, title) => HeadingIsRead(level, title, tail);
    case Paragraph(words) => ParagraphIsRead(words, tail);
    case CodeBlock(lang, body) => CodeIsRead(lang, body, tail);
    case Rule => RuleIsRead(tail);
    case BulletList(bullets) => BulletListIsRead(bullets, tail);
    case OrderedList(entries) => OrderedListIsRead(entries, tail);
    case TaskList(tasks) => TaskListIsRead(tasks, tail);
  }

  lemma {:induction false} DocIsRead(blocks: seq<FlatBlock>)
    requires ArePrintable(blocks)
    ensures ParseBlocks(ReadAll(DocLines(blocks))) == Parsed(ToNodes(blocks))
  {
    if |blocks| == 1 {
      FirstIsRead(blocks[0], []);
      assert BlockLines(blocks[0]) + [] == BlockLines(blocks[0]);
      OneNode(blocks);
    } else if |blocks| > 1 {
      DocIsRead(blocks[1..]);
      ConsIsRead(blocks[0], DocLines(blocks[1..]));
    }
  }

  lemma OneNode(blocks: seq<FlatBlock>)
    requires |blocks| == 1
    ensures Prepend([ToNode(blocks[0])], ParseBlocks(ReadAll([]))) == Parsed(ToNodes(blocks))
  {}

  lemma ConsIsRead(b: FlatBlock, raws: seq<string>)
    requires IsPrintable(b)
    ensures ParseBlocks(ReadAll(BlockLines(b) + [""] + raws)) == Prepend([ToNode(b)], ParseBlocks(ReadAll(raws)))
  {
    var tail := [""] + raws;
    FirstIsRead(b, tail);
    BlankIsSkipped(raws);
    Regroup(BlockLines(b), raws);
  }

  lemma Regroup(a: seq<string>, b: seq<string>)
    ensures a + [""] + b == a + ([""] + b)
  {}

  lemma StepIsRead(raws: seq<string>, node: PMNode, tail: seq<string>)
    requires |tail| < |raws| && ParseStep(ReadAll(raws)) == ([node], ReadAll(tail))
    ensures ParseBlocks(ReadAll(raws)) == Prepend([node], ParseBlocks(ReadAll(tail)))
  {}

  lemma FirstIsRead(b: FlatBlock, tail: seq<string>)
    requires IsPrintable(b) && Ends(tail)
    ensures ParseBlocks(ReadAll(BlockLines(b) + tail)) == Prepend([ToNode(b)], ParseBlocks(ReadAll(tail)))
  {
    PrintableIsStackable(b);
    BlockSolid(b);
    BlockIsRead(b, tail);
    StepIsRead(BlockLines(b) + tail, ToNode(b), tail);
  }

  lemma BlankIsSkipped(raws: seq<string>)
    ensures ParseBlocks(ReadAll([""] + raws)) == ParseBlocks(ReadAll(raws))
  {
    ReadEmpty();
    ReadCons(Read, "", raws);
    SkipsBlankLine(Read(""), ReadAll(raws));
  }

  lemma SkipsBlankLine(line: Line, rest: seq<Line>)
    requires IsBlankLine(line)
    ensures ParseBlocks([line] + rest) == ParseBlocks(rest)
  {
    assert ([line] + rest)[1..] == rest;
  }

  /** Printing a nonempty flat document and parsing the Markdown gives the document back. */
  lemma RoundTrip(blocks: seq<FlatBlock>)
    requires blocks != [] && ArePrintable(blocks)
    ensures FromMarkdown(ToMarkdown(FlatDoc(blocks))) == Some(FlatDoc(blocks))
  {
    var markdown := ToMarkdown(FlatDoc(blocks));
    DocPrints(blocks);
    DocIsRead(blocks);
    assert ParseBlocks(Lines(markdown)) == Parsed(ToNodes(blocks));
    assert ToNodes(blocks) != [];
  }
}
