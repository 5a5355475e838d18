/** What a Markdown text means: the ways in which its lines fall into blocks, and the node of each block.
  * The parser reads exactly the texts that fall into blocks, and reads them as those. */
module MarkdownReading {
  import opened Results
  import opened JsText
  import opened ProseMirror
  import opened MarkdownLines
  import opened MarkdownParser
  import MarkdownPatterns

  /** A block as it stands in the text. */
  datatype Written =
    | Fenced(open: Line, body: seq<Line>, close: Option<Line>)
    | Heading(line: Line)
    | Rule(line: Line)
    | TaskLines(items: seq<Line>)
    | BulletLines(items: seq<Line>)
    | NumberLines(items: seq<Line>)
    | Blank(line: Line)
    | Prose(items: seq<Line>)

  function LinesOfBlock(w: Written): seq<Line> {
    match w
    case Fenced(open, body, close) => [open] + body + if close.Some? then [close.value] else []
    case Heading(line) => [line]
    case Rule(line) => [line]
    case TaskLines(items) => items
    case BulletLines(items) => items
    case NumberLines(items) => items
    case Blank(line) => [line]
    case Prose(items) => items
  }

  // ---------- The nodes ----------

  function Words(text: string): PMContent {
    Content(if text == "" then [] else [PMNode("text", None, NoContent, None, Some(text))])
  }

  function Paragraph(text: string): PMNode {
    PMNode("paragraph", None, Words(text), None, None)
  }

  function Listed(text: Option<string>): PMNode {
    PMNode("listItem", None, Content([Paragraph(if text.Some? then text.value else "")]), None, None)
  }

  function Ticked(task: Option<(char, string)>): PMNode {
    var (box, text) := if task.Some? then task.value else (' ', "");
    PMNode("taskItem", Some(map["checked" := Flag(box == 'x' || box == 'X')]), Content([Paragraph(text)]), None, None)
  }

  function EachBullet(lines: seq<Line>): seq<PMNode> {
    if lines == [] then [] else [Listed(lines[0].bullet)] + EachBullet(lines[1..])
  }

  function EachNumber(lines: seq<Line>): seq<PMNode> {
    if lines == [] then [] else [Listed(lines[0].numbered)] + EachNumber(lines[1..])
  }

  function EachTask(lines: seq<Line>): seq<PMNode> {
    if lines == [] then [] else [Ticked(lines[0].task)] + EachTask(lines[1..])
  }

  function Texts(lines: seq<Line>): seq<string> {
    if lines == [] then [] else [lines[0].raw] + Texts(lines[1..])
  }

  function List(kind: string, items: seq<PMNode>): PMNode {
    PMNode(kind, None, Content(items), None, None)
  }

  function Code(info: string, body: seq<Line>): PMNode {
    var text := Join(Texts(body), "\n");
    PMNode("codeBlock", Some(if Trim(info) == "" then map[] else map["language" := Text(Trim(info))]),
           Content(if body == [] then [] else [PMNode("text", None, NoContent, None, Some(text))]), None, None)
  }

  function NodesOfBlock(w: Written): seq<PMNode> {
    match w
    case Fenced(open, body, _) => if open.fence.Some? then [Code(open.fence.value, body)] else []
    case Heading(line) =>
      var (level, text) := if line.heading.Some? then line.heading.value else (1, "");
      [PMNode("heading", Some(map["level" := Number(level as real)]), Words(Trim(text)), None, None)]
    case Rule(_) => [PMNode("horizontalRule", None, NoContent, None, None)]
    case TaskLines(items) => [List("taskList", EachTask(items))]
    case BulletLines(items) => [List("bulletList", EachBullet(items))]
    case NumberLines(items) => [List("orderedList", EachNumber(items))]
    case Blank(_) => []
    case Prose(items) => [Paragraph(Join(Texts(items), " "))]
  }

  function Doc(nodes: seq<PMNode>): PMNode {
    var empty := PMNode("paragraph", None, NoContent, None, None);
    PMNode("doc", None, Content(if nodes == [] then [empty] else nodes), None, None)
  }

  // ---------- Which lines make which block ----------

  predicate IsPlain(l: Line) {
    l.fence.None? && l.heading.None? && !l.rule
  }

  predicate IsReadableTask(l: Line) {
    l.task.Some? && OnOneLine(l.task.value.1)
  }

  /** No pattern at all. */
  predicate StartsProse(l: Line) {
    IsPlain(l) && l.task.None? && l.bullet.None? && l.numbered.None? && !l.blank
  }

  predicate GoesOn(l: Line) {
    !l.blank && !l.hash && l.fence.None? && l.bullet.None? && l.numbered.None?
  }

  ghost predicate IsWritten(w: Written) {
    match w
    case Fenced(open, body, close) =>
      && open.fence.Some? && (forall i | 0 <= i < |body| :: body[i].fence.None?)
      && (close.Some? ==> close.value.fence.Some?)
    case Heading(line) => line.fence.None? && line.heading.Some?
    case Rule(line) => line.fence.None? && line.heading.None? && line.rule
    case TaskLines(items) => items != [] && IsPlain(items[0]) && forall i | 0 <= i < |items| :: IsReadableTask(items[i])
    case BulletLines(items) =>
      && items != [] && IsPlain(items[0]) && items[0].task.None?
      && forall i | 0 <= i < |items| :: items[i].bullet.Some?
    case NumberLines(items) =>
      && items != [] && IsPlain(items[0]) && items[0].task.None? && items[0].bullet.None?
      && forall i | 0 <= i < |items| :: items[i].numbered.Some?
    case Blank(line) => IsPlain(line) && line.task.None? && line.bullet.None? && line.numbered.None? && line.blank
    case Prose(items) =>
      && items != [] && StartsProse(items[0])
      && forall i | 1 <= i < |items| :: GoesOn(items[i])
  }

  /** The block does not take the following line too. */
  predicate EndsBefore(w: Written, next: Line) {
    match w
    case Fenced(_, _, close) => close.Some?
    case TaskLines(_) => !IsReadableTask(next)
    case BulletLines(_) => next.bullet.None?
    case NumberLines(_) => next.numbered.None?
    case Prose(_) => !GoesOn(next)
    case _ => true
  }

  function LinesOf(ws: seq<Written>): seq<Line> {
    if ws == [] then [] else LinesOfBlock(ws[0]) + LinesOf(ws[1..])
  }

  function NodesOf(ws: seq<Written>): seq<PMNode> {
    if ws == [] then [] else NodesOfBlock(ws[0]) + NodesOf(ws[1..])
  }

  /** Blocks one after the other, each ending where the next one begins. */
  ghost predicate Arranged(ws: seq<Written>) {
    ws == [] ||
    (IsWritten(ws[0]) && Arranged(ws[1..]) && (LinesOf(ws[1..]) != [] ==> EndsBefore(ws[0], LinesOf(ws[1..])[0])))
  }

  // ---------- One block is read by one iteration ----------

  lemma NodesAreThese(text: string, body: seq<Line>, info: string)
    ensures Inline(text) == Words(text) && BlockNode("paragraph", Inline(text)) == Paragraph(text)
    ensures ItemNode(text) == Listed(Some(text))
    ensures CodeNode(Trim(info), Texts(body)) == Code(info, body)
  {
    TextsCount(body);
  }

  lemma {:induction false} TextsCount(lines: seq<Line>)
    ensures |Texts(lines)| == |lines|
  {
    if lines != [] {
      TextsCount(lines[1..]);
    }
  }

  lemma {:induction false} CodeTaken(body: seq<Line>, tail: seq<Line>)
    requires (forall i | 0 <= i < |body| :: body[i].fence.None?) && (tail == [] || tail[0].fence.Some?)
    ensures TakeCode(body + tail) == (Texts(body), if tail == [] then [] else tail[1..])
  {
    if body == [] {
      assert body + tail == tail;
    } else {
      assert (body + tail)[1..] == body[1..] + tail;
      CodeTaken(body[1..], tail);
    }
  }

  lemma {:induction false} TasksTaken(items: seq<Line>, tail: seq<Line>)
    requires (forall i | 0 <= i < |items| :: IsReadableTask(items[i])) && (tail == [] || !IsReadableTask(tail[0]))
    ensures TakeTasks(items + tail) == (EachTask(items), tail)
  {
    if items == [] {
      assert items + tail == tail;
    } else {
      assert (items + tail)[1..] == items[1..] + tail;
      TasksTaken(items[1..], tail);
      TickedIs(items[0]);
    }
  }

  lemma TickedIs(l: Line)
    requires l.task.Some?
    ensures TaskOfLine(l) == Ticked(l.task)
  {}

  lemma {:induction false} BulletsTaken(items: seq<Line>, tail: seq<Line>)
    requires (forall i | 0 <= i < |items| :: items[i].bullet.Some?) && (tail == [] || tail[0].bullet.None?)
    ensures TakeBullets(items + tail) == (EachBullet(items), tail)
  {
    if items == [] {
      assert items + tail == tail;
    } else {
      assert (items + tail)[1..] == items[1..] + tail;
      BulletsTaken(items[1..], tail);
    }
  }

  lemma {:induction false} NumbersTaken(items: seq<Line>, tail: seq<Line>)
    requires (forall i | 0 <= i < |items| :: items[i].numbered.Some?) && (tail == [] || tail[0].numbered.None?)
    ensures TakeNumbered(items + tail) == (EachNumber(items), tail)
  {
    if items == [] {
      assert items + tail == tail;
    } else {
      assert (items + tail)[1..] == items[1..] + tail;
      NumbersTaken(items[1..], tail);
    }
  }

  lemma {:induction false} ProseTaken(items: seq<Line>, tail: seq<Line>)
    requires (forall i | 0 <= i < |items| :: GoesOn(items[i])) && (tail == [] || !GoesOn(tail[0]))
    ensures TakeParagraph(items + tail) == (Texts(items), tail)
  {
    if items == [] {
      assert items + tail == tail;
    } else {
      assert (items + tail)[1..] == items[1..] + tail;
      ProseTaken(items[1..], tail);
    }
  }

  lemma FencedIsRead(open: Line, body: seq<Line>, close: Option<Line>, tail: seq<Line>)
    requires IsWritten(Fenced(open, body, close)) && (tail != [] ==> close.Some?)
    ensures ParseStep(LinesOfBlock(Fenced(open, body, close)) + tail) == ([Code(open.fence.value, body)], tail)
  {
    var rest := (if close.Some? then [close.value] else []) + tail;
    assert LinesOfBlock(Fenced(open, body, close)) + tail == [open] + (body + rest);
    assert rest == [] || rest[1..] == tail;
    CodeTaken(body, rest);
    NodesAreThese("", body, open.fence.value);
    FenceStep(open, body + rest);
  }

  lemma FenceStep(open: Line, rest: seq<Line>)
    requires open.fence.Some?
    ensures ParseStep([open] + rest) == ([CodeNode(Trim(open.fence.value), TakeCode(rest).0)], TakeCode(rest).1)
  {}

  lemma TasksAreRead(items: seq<Line>, tail: seq<Line>)
    requires IsWritten(TaskLines(items)) && (tail == [] || !IsReadableTask(tail[0]))
    ensures ParseStep(items + tail) == ([List("taskList", EachTask(items))], tail)
  {
    assert IsReadableTask(items[0]);
    TasksTaken(items, tail);
  }

  lemma BulletsAreRead(items: seq<Line>, tail: seq<Line>)
    requires IsWritten(BulletLines(items)) && (tail == [] || tail[0].bullet.None?)
    ensures ParseStep(items + tail) == ([List("bulletList", EachBullet(items))], tail)
  {
    BulletsTaken(items, tail);
  }

  lemma NumbersAreRead(items: seq<Line>, tail: seq<Line>)
    requires IsWritten(NumberLines(items)) && (tail == [] || tail[0].numbered.None?)
    ensures ParseStep(items + tail) == ([List("orderedList", EachNumber(items))], tail)
  {
    NumbersTaken(items, tail);
  }

  lemma ProseStep(line: Line, rest: seq<Line>)
    requires StartsProse(line)
    ensures var (para, rest') := TakeParagraph(rest);
            ParseStep([line] + rest) == ([BlockNode("paragraph", Inline(Join([line.raw] + para, " ")))], rest')
  {
    assert ([line] + rest)[1..] == rest;
  }

  lemma ProseIsRead(items: seq<Line>, tail: seq<Line>)
    requires IsWritten(Prose(items)) && (tail == [] || !GoesOn(tail[0]))
    ensures ParseStep(items + tail) == ([Paragraph(Join(Texts(items), " "))], tail)
  {
    var rest := items[1..];
    assert forall i | 0 <= i < |rest| :: rest[i] == items[i + 1];
    assert items + tail == [items[0]] + (rest + tail);
    ProseTaken(rest, tail);
    ProseStep(items[0], rest + tail);
    NodesAreThese(Join(Texts(items), " "), [], "");
  }

  lemma OneLineIsRead(w: Written, tail: seq<Line>)
    requires IsWritten(w) && (w.Heading? || w.Rule? || w.Blank?)
    ensures ParseStep([w.line] + tail) == (NodesOfBlock(w), tail)
  {
    assert ([w.line] + tail)[1..] == tail;
  }

  /** One iteration of the outer loop reads one block. */
  lemma BlockIsRead(w: Written, tail: seq<Line>)
    requires IsWritten(w) && (tail != [] ==> EndsBefore(w, tail[0]))
    ensures LinesOfBlock(w) != [] && ParseStep(LinesOfBlock(w) + tail) == (NodesOfBlock(w), tail)
  {
    match w
    case Fenced(open, body, close) => FencedIsRead(open, body, close, tail);
    case TaskLines(items) => TasksAreRead(items, tail);
    case BulletLines(items) => BulletsAreRead(items, tail);
    case NumberLines(items) => NumbersAreRead(items, tail);
    case Prose(items) => ProseIsRead(items, tail);
    case _ => OneLineIsRead(w, tail);
  }

  lemma {:induction false} ArrangedIsRead(ws: seq<Written>)
    requires Arranged(ws)
    ensures ParseBlocks(LinesOf(ws)) == Parsed(NodesOf(ws))
  {
    if ws != [] {
      ArrangedIsRead(ws[1..]);
      BlockIsRead(ws[0], LinesOf(ws[1..]));
    }
  }

  // ---------- Whatever is read falls into blocks ----------

  lemma {:induction false} LeadingRun(p: Line -> bool, lines: seq<Line>) returns (n: nat)
    ensures n <= |lines| && (forall i | 0 <= i < n :: p(lines[i])) && (n < |lines| ==> !p(lines[n]))
  {
    n := 0;
    if lines != [] && p(lines[0]) {
      n := LeadingRun(p, lines[1..]);
      n := n + 1;
      assert forall i | 1 <= i < n :: lines[i] == lines[1..][i - 1];
    }
  }

  /** The first block and what follows it. */
  ghost predicate Begins(lines: seq<Line>, w: Written, tail: seq<Line>) {
    IsWritten(w) && lines == LinesOfBlock(w) + tail && (tail != [] ==> EndsBefore(w, tail[0]))
  }

  lemma FirstIsFenced(lines: seq<Line>) returns (w: Written, tail: seq<Line>)
    requires lines != [] && lines[0].fence.Some?
    ensures Begins(lines, w, tail)
  {
    var rest := lines[1..];
    var n := LeadingRun((l: Line) => l.fence.None?, rest);
    if n < |rest| {
      w, tail := Fenced(lines[0], rest[..n], Some(rest[n])), rest[n + 1..];
    } else {
      w, tail := Fenced(lines[0], rest, None), [];
    }
  }

  lemma FirstIsTasks(lines: seq<Line>) returns (w: Written, tail: seq<Line>)
    requires lines != [] && IsPlain(lines[0]) && IsReadableTask(lines[0])
    ensures Begins(lines, w, tail)
  {
    var n := LeadingRun(IsReadableTask, lines);
    w, tail := TaskLines(lines[..n]), lines[n..];
  }

  lemma FirstIsBullets(lines: seq<Line>) returns (w: Written, tail: seq<Line>)
    requires lines != [] && IsPlain(lines[0]) && lines[0].task.None? && lines[0].bullet.Some?
    ensures Begins(lines, w, tail)
  {
    var n := LeadingRun((l: Line) => l.bullet.Some?, lines);
    w, tail := BulletLines(lines[..n]), lines[n..];
  }

  lemma FirstIsNumbers(lines: seq<Line>) returns (w: Written, tail: seq<Line>)
    requires lines != [] && IsPlain(lines[0]) && lines[0].task.None? && lines[0].bullet.None?
    requires lines[0].numbered.Some?
    ensures Begins(lines, w, tail)
  {
    var n := LeadingRun((l: Line) => l.numbered.Some?, lines);
    w, tail := NumberLines(lines[..n]), lines[n..];
  }

  lemma FirstIsProse(lines: seq<Line>) returns (w: Written, tail: seq<Line>)
    requires lines != [] && StartsProse(lines[0])
    ensures Begins(lines, w, tail)
  {
    var rest := lines[1..];
    var n := LeadingRun(GoesOn, rest);
    w, tail := Prose([lines[0]] + rest[..n]), rest[n..];
  }

  lemma FirstIsOneLine(lines: seq<Line>, w: Written) returns (tail: seq<Line>)
    requires lines != [] && IsWritten(w) && (w.Heading? || w.Rule? || w.Blank?) && w.line == lines[0]
    ensures Begins(lines, w, tail)
  {
    tail := lines[1..];
  }

  /** An iteration that reads something reads a block. */
  lemma FirstBlock(lines: seq<Line>) returns (w: Written, tail: seq<Line>)
    requires lines != [] && |ParseStep(lines).1| < |lines|
    ensures Begins(lines, w, tail)
  {
    var l := lines[0];
    if l.fence.Some? {
      w, tail := FirstIsFenced(lines);
    } else if l.heading.Some? {
      w := Heading(l);
      tail := FirstIsOneLine(lines, w);
    } else if l.rule {
      w := Rule(l);
      tail := FirstIsOneLine(lines, w);
    } else if l.task.Some? {
      w, tail := FirstIsTasks(lines);
    } else if l.bullet.Some? {
      w, tail := FirstIsBullets(lines);
    } else if l.numbered.Some? {
      w, tail := FirstIsNumbers(lines);
    } else if l.blank {
      w := Blank(l);
      tail := FirstIsOneLine(lines, w);
    } else {
      w, tail := FirstIsProse(lines);
    }
  }

  lemma {:induction false} ReadIsArranged(lines: seq<Line>) returns (ws: seq<Written>)
    requires ParseBlocks(lines).Parsed?
    ensures Arranged(ws) && LinesOf(ws) == lines
    decreases |lines|
  {
    ws := [];
    if lines != [] {
      var w, tail := FirstBlock(lines);
      BlockIsRead(w, tail);
      var rest := ReadIsArranged(tail);
      ws := [w] + rest;
      assert ws[1..] == rest;
    }
  }

  lemma DocIs(nodes: seq<PMNode>)
    ensures DocOf(nodes) == Doc(nodes)
  {}

  ghost predicate MeansByBlocks(markdown: string, ws: seq<Written>, doc: PMNode) {
    Arranged(ws) && LinesOf(ws) == Lines(markdown) && doc == Doc(NodesOf(ws))
  }

  /** The parser returns a document exactly when the lines of the text fall into blocks, each ending where
    * the next one begins, and the document is that of their nodes. */
  lemma MarkdownMeansItsBlocks(markdown: string, doc: PMNode)
    ensures FromMarkdown(markdown) == Some(doc) <==> exists ws :: MeansByBlocks(markdown, ws, doc)
  {
    if FromMarkdown(markdown) == Some(doc) {
      var ws := ReadIsArranged(Lines(markdown));
      ArrangedIsRead(ws);
      DocIs(NodesOf(ws));
      assert MeansByBlocks(markdown, ws, doc);
    }
    if ws :| MeansByBlocks(markdown, ws, doc) {
      ArrangedIsRead(ws);
      DocIs(NodesOf(ws));
    }
  }

  // ---------- Texts of one block ----------

  ghost predicate AreLines(raws: seq<string>) {
    raws != [] && forall r <- raws :: '\n' !in r
  }

  /** Lines that fall into blocks are read as these, with or without empty lines between them. */
  lemma BlocksAreRead(raws: seq<string>, ws: seq<Written>)
    requires AreLines(raws) && Arranged(ws) && LinesOf(ws) == ReadAll(raws)
    ensures FromMarkdown(Join(raws, "\n")) == Some(Doc(NodesOf(ws)))
  {
    SplitJoin(raws);
    ArrangedIsRead(ws);
    DocIs(NodesOf(ws));
  }

  lemma OnlyBlock(w: Written)
    requires IsWritten(w)
    ensures Arranged([w]) && LinesOf([w]) == LinesOfBlock(w) && NodesOf([w]) == NodesOfBlock(w)
  {
    var rest := [w][1..];
    assert rest == [] && Arranged(rest) && LinesOf(rest) == [] && NodesOf(rest) == [];
    assert LinesOfBlock(w) + [] == LinesOfBlock(w) && NodesOfBlock(w) + [] == NodesOfBlock(w);
  }

  lemma OneBlockIsRead(raws: seq<string>, w: Written)
    requires AreLines(raws) && IsWritten(w) && LinesOfBlock(w) == ReadAll(raws)
    ensures FromMarkdown(Join(raws, "\n")) == Some(Doc(NodesOfBlock(w)))
  {
    OnlyBlock(w);
    BlocksAreRead(raws, [w]);
  }

  lemma {:induction false} TextsOfReadWith(read: Reader, raws: seq<string>)
    requires forall i | 0 <= i < |raws| :: read(raws[i]).raw == raws[i]
    ensures Texts(ReadWith(read, raws)) == raws
  {
    if raws != [] {
      TextsOfReadWith(read, raws[1..]);
    }
  }

  lemma TextsOfRead(raws: seq<string>)
    ensures Texts(ReadAll(raws)) == raws
  {
    TextsOfReadWith(Read, raws);
  }

  /** The lines of a paragraph are joined by blanks, and none is lost. */
  lemma ParagraphIsJoined(raws: seq<string>)
    requires AreLines(raws) && StartsProse(Read(raws[0]))
    requires forall i | 1 <= i < |raws| :: GoesOn(Read(raws[i]))
    ensures FromMarkdown(Join(raws, "\n")) == Some(Doc([Paragraph(Join(raws, " "))]))
  {
    var items := ReadAll(raws);
    forall i | 0 <= i < |raws| ensures items[i] == Read(raws[i]) {
      ReadAt(Read, raws, i);
    }
    TextsOfRead(raws);
    OneBlockIsRead(raws, Prose(items));
  }

  function ListedAll(texts: seq<string>): seq<PMNode> {
    seq(|texts|, i requires 0 <= i < |texts| => Listed(Some(texts[i])))
  }

  lemma {:induction false} BulletsAreListed(items: seq<Line>, texts: seq<string>)
    requires |items| == |texts| && forall i | 0 <= i < |items| :: items[i].bullet == Some(texts[i])
    ensures EachBullet(items) == ListedAll(texts)
  {
    if items != [] {
      BulletsAreListed(items[1..], texts[1..]);
      assert ListedAll(texts) == [Listed(Some(texts[0]))] + ListedAll(texts[1..]);
    }
  }

  lemma {:induction false} NumbersAreListed(items: seq<Line>, texts: seq<string>)
    requires |items| == |texts| && forall i | 0 <= i < |items| :: items[i].numbered == Some(texts[i])
    ensures EachNumber(items) == ListedAll(texts)
  {
    if items != [] {
      NumbersAreListed(items[1..], texts[1..]);
      assert ListedAll(texts) == [Listed(Some(texts[0]))] + ListedAll(texts[1..]);
    }
  }

  function TickedAll(tasks: seq<(char, string)>): seq<PMNode> {
    seq(|tasks|, i requires 0 <= i < |tasks| => Ticked(Some(tasks[i])))
  }

  lemma {:induction false} TasksAreTicked(items: seq<Line>, tasks: seq<(char, string)>)
    requires |items| == |tasks| && forall i | 0 <= i < |items| :: items[i].task == Some(tasks[i])
    ensures EachTask(items) == TickedAll(tasks)
  {
    if items != [] {
      TasksAreTicked(items[1..], tasks[1..]);
      assert TickedAll(tasks) == [Ticked(Some(tasks[0]))] + TickedAll(tasks[1..]);
    }
  }

  ghost predicate StandsAsBullet(raw: string, text: string) {
    exists indent, mark, gap :: MarkdownPatterns.IsBulletLine(raw, indent, mark, gap, text)
  }

  ghost predicate StandsAsNumber(raw: string, text: string) {
    exists indent, digits, gap :: MarkdownPatterns.IsNumberedLine(raw, indent, digits, gap, text)
  }

  ghost predicate StandsAsTask(raw: string, task: (char, string)) {
    && OnOneLine(task.1)
    && exists indent, gap, t, gap' :: MarkdownPatterns.IsTaskLine(raw, indent, gap, t, task.0, gap', task.1)
  }

  lemma ReadsAsItem(raw: string, text: string)
    ensures Read(raw).IsConsistent()
    ensures StandsAsBullet(raw, text) ==> Read(raw).bullet == Some(text)
    ensures StandsAsNumber(raw, text) ==> Read(raw).numbered == Some(text)
  {
    ReadIsConsistent(raw);
    MarkdownPatterns.BulletPattern(raw, text);
    MarkdownPatterns.NumberedPattern(raw, text);
  }

  lemma ReadsAsTask(raw: string, task: (char, string))
    requires StandsAsTask(raw, task)
    ensures Read(raw).task == Some(task) && Read(raw).IsConsistent()
  {
    ReadIsConsistent(raw);
    MarkdownPatterns.TaskPattern(raw, task.0, task.1);
  }

  lemma BulletRun(read: Reader, raws: seq<string>, texts: seq<string>)
    requires 0 < |raws| == |texts| && read(raws[0]).IsConsistent() && read(raws[0]).task.None?
    requires forall i | 0 <= i < |raws| :: read(raws[i]).bullet == Some(texts[i])
    ensures var items := ReadWith(read, raws); IsWritten(BulletLines(items)) && EachBullet(items) == ListedAll(texts)
  {
    var items := ReadWith(read, raws);
    forall i | 0 <= i < |raws| ensures items[i] == read(raws[i]) {
      ReadAt(read, raws, i);
    }
    BulletsAreListed(items, texts);
  }

  lemma NumberRun(read: Reader, raws: seq<string>, texts: seq<string>)
    requires 0 < |raws| == |texts| && read(raws[0]).IsConsistent() && IsPlain(read(raws[0]))
    requires forall i | 0 <= i < |raws| :: read(raws[i]).numbered == Some(texts[i])
    ensures var items := ReadWith(read, raws); IsWritten(NumberLines(items)) && EachNumber(items) == ListedAll(texts)
  {
    var items := ReadWith(read, raws);
    forall i | 0 <= i < |raws| ensures items[i] == read(raws[i]) {
      ReadAt(read, raws, i);
    }
    NumbersAreListed(items, texts);
  }

  lemma TaskRun(read: Reader, raws: seq<string>, tasks: seq<(char, string)>)
    requires 0 < |raws| == |tasks| && read(raws[0]).IsConsistent()
    requires forall i | 0 <= i < |raws| :: read(raws[i]).task == Some(tasks[i]) && OnOneLine(tasks[i].1)
    ensures var items := ReadWith(read, raws); IsWritten(TaskLines(items)) && EachTask(items) == TickedAll(tasks)
  {
    var items := ReadWith(read, raws);
    forall i | 0 <= i < |raws| ensures items[i] == read(raws[i]) {
      ReadAt(read, raws, i);
    }
    TasksAreTicked(items, tasks);
  }

  /** Dashes and stars, with any indent and any white space behind them, make one list. */
  lemma BulletListIsRead(raws: seq<string>, texts: seq<string>)
    requires AreLines(raws) && |raws| == |texts| && TaskOf(raws[0]).None?
    requires forall i | 0 <= i < |raws| :: StandsAsBullet(raws[i], texts[i])
    ensures FromMarkdown(Join(raws, "\n")) == Some(Doc([List("bulletList", ListedAll(texts))]))
  {
    ReadsAsItem(raws[0], texts[0]);
    forall i | 0 <= i < |raws| ensures Read(raws[i]).bullet == Some(texts[i]) {
      ReadsAsItem(raws[i], texts[i]);
    }
    BulletRun(Read, raws, texts);
    OneBlockIsRead(raws, BulletLines(ReadAll(raws)));
  }

  /** Numbers of any value, in any order, make one list. */
  lemma NumberedListIsRead(raws: seq<string>, texts: seq<string>)
    requires AreLines(raws) && |raws| == |texts|
    requires forall i | 0 <= i < |raws| :: StandsAsNumber(raws[i], texts[i])
    ensures FromMarkdown(Join(raws, "\n")) == Some(Doc([List("orderedList", ListedAll(texts))]))
  {
    ReadsAsItem(raws[0], texts[0]);
    NumberIsPlain(raws[0], texts[0]);
    forall i | 0 <= i < |raws| ensures Read(raws[i]).numbered == Some(texts[i]) {
      ReadsAsItem(raws[i], texts[i]);
    }
    NumberRun(Read, raws, texts);
    OneBlockIsRead(raws, NumberLines(ReadAll(raws)));
  }

  lemma NumberIsPlain(raw: string, text: string)
    requires NumberedOf(raw) == Some(text)
    ensures FenceOf(raw).None? && HeadingOf(raw).None? && !IsRule(raw)
  {
    NumberedIsNoBullet(raw);
    NumberedStarts(raw);
    DigitIsNoHeading(raw);
    DigitIsNoRule(raw);
  }

  lemma DigitIsNoHeading(raw: string)
    requires TrimStart(raw) != "" && '0' <= TrimStart(raw)[0] <= '9'
    ensures HeadingOf(raw).None?
  {
    FirstOfLine(raw);
    FenceOrHashFirst(raw);
  }

  lemma DigitIsNoRule(raw: string)
    requires TrimStart(raw) != "" && '0' <= TrimStart(raw)[0] <= '9'
    ensures !IsRule(raw)
  {
    KeepsFirst(TrimStart(raw));
  }

  lemma KeepsFirst(s: string)
    requires s != "" && '0' <= s[0] <= '9'
    ensures TrimEnd(s) != "" && TrimEnd(s)[0] in TrimEnd(s) && TrimEnd(s)[0] == s[0]
  {
    TrimEndEmpties(s);
    assert s[0] in s;
  }

  /** Boxes ticked with either letter make checked items, blank ones open items. */
  lemma TaskListIsRead(raws: seq<string>, tasks: seq<(char, string)>)
    requires AreLines(raws) && |raws| == |tasks|
    requires forall i | 0 <= i < |raws| :: StandsAsTask(raws[i], tasks[i])
    ensures FromMarkdown(Join(raws, "\n")) == Some(Doc([List("taskList", TickedAll(tasks))]))
  {
    ReadsAsTask(raws[0], tasks[0]);
    forall i | 0 <= i < |raws| ensures Read(raws[i]).task == Some(tasks[i]) && OnOneLine(tasks[i].1) {
      ReadsAsTask(raws[i], tasks[i]);
    }
    TaskRun(Read, raws, tasks);
    OneBlockIsRead(raws, TaskLines(ReadAll(raws)));
  }

  lemma CodeRun(read: Reader, open: string, info: string, body: seq<string>)
    requires read(open).fence == Some(info) && forall i | 0 <= i < |body| :: read(body[i]).fence.None?
    ensures var w := Fenced(read(open), ReadWith(read, body), None);
            IsWritten(w) && LinesOfBlock(w) == ReadWith(read, [open] + body) &&
            NodesOfBlock(w) == [Code(info, ReadWith(read, body))]
  {
    var lines := ReadWith(read, body);
    forall i | 0 <= i < |body| ensures lines[i].fence.None? {
      ReadAt(read, body, i);
    }
    ReadCons(read, open, body);
  }

  /** A code block without a closing fence takes the rest of the text. */
  lemma UnclosedCodeIsRead(info: string, body: seq<string>)
    requires AreLines(["```" + info] + body) && forall i | 0 <= i < |body| :: FenceOf(body[i]).None?
    ensures FromMarkdown(Join(["```" + info] + body, "\n")) == Some(Doc([Code(info, ReadAll(body))]))
  {
    var open := "```" + info;
    MarkdownPatterns.FencePattern(open, info);
    CodeRun(Read, open, info, body);
    OneBlockIsRead([open] + body, Fenced(Read(open), ReadAll(body), None));
  }

  /** A text of white space is an empty paragraph without any content list. */
  lemma BlankTextIsRead(markdown: string)
    requires AllSpaces(markdown)
    ensures FromMarkdown(markdown) ==
            Some(PMNode("doc", None, Content([PMNode("paragraph", None, NoContent, None, None)]), None, None))
  {
    BlanksSplit(markdown);
    forall i | 0 <= i < |Split(markdown)| ensures IsWritten(Blank(Read(Split(markdown)[i]))) {
      BlankReads(Split(markdown)[i]);
    }
    BlanksAreSkipped(Read, Split(markdown));
    DocIs([]);
  }

  lemma BlankReads(raw: string)
    requires AllSpaces(raw)
    ensures IsWritten(Blank(Read(raw)))
  {
    TrimStartEmpties(raw);
    TrimEmpties(raw);
    if raw != "" {
      assert raw[0] in raw;
    }
    FenceOrHashFirst(raw);
  }

  lemma {:induction false} BlanksSplit(s: string)
    requires AllSpaces(s)
    ensures forall i | 0 <= i < |Split(s)| :: AllSpaces(Split(s)[i])
  {
    if s != "" {
      assert s[0] in s && forall c <- s[1..] :: c in s;
      BlanksSplit(s[1..]);
      MarkdownPatterns.ConsSpace(s[0], Split(s[1..])[0]);
    }
  }

  lemma {:induction false} BlanksAreSkipped(read: Reader, raws: seq<string>)
    requires forall i | 0 <= i < |raws| :: IsWritten(Blank(read(raws[i])))
    ensures ParseBlocks(ReadWith(read, raws)) == Parsed([])
  {
    if raws != [] {
      BlanksAreSkipped(read, raws[1..]);
      BlockIsRead(Blank(read(raws[0])), ReadWith(read, raws[1..]));
    }
  }
}
