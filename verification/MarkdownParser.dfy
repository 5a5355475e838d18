/** The line-based Markdown parser. `ParseBlocks` specifies the outer loop on the lines not yet read;
  * an iteration that reads no line would repeat for ever, and is the outcome `Hangs`. */
module MarkdownParser {
  import opened Results
  import opened JsText
  import opened ProseMirror
  import opened MarkdownLines

  // ---------- The nodes that are built ----------

  function TextNode(text: string): PMNode {
    PMNode("text", None, NoContent, None, Some(text))
  }

  function Inline(text: string): PMContent {
    Content(if text != "" then [TextNode(text)] else [])
  }

  function BlockNode(kind: string, content: PMContent): PMNode {
    PMNode(kind, None, content, None, None)
  }

  function HeadingNode(level: nat, text: string): PMNode {
    PMNode("heading", Some(map["level" := Number(level as real)]), Inline(text), None, None)
  }

  function CodeNode(lang: string, body: seq<string>): PMNode {
    PMNode("codeBlock", Some(if lang != "" then map["language" := Text(lang)] else map[]),
           Content(if |body| > 0 then [TextNode(Join(body, "\n"))] else []), None, None)
  }

  function ItemNode(text: string): PMNode {
    BlockNode("listItem", Content([BlockNode("paragraph", Inline(text))]))
  }

  function TaskNode(checked: bool, text: string): PMNode {
    PMNode("taskItem", Some(map["checked" := Flag(checked)]),
           Content([BlockNode("paragraph", Inline(text))]), None, None)
  }

  /** The lines of a text with their patterns. */
  function Lines(markdown: string): seq<Line> {
    ReadAll(Split(markdown))
  }

  // ---------- The parser on the lines not yet read ----------

  /** The lines of a code block and what follows its closing fence, if it has one. */
  function TakeCode(lines: seq<Line>): (r: (seq<string>, seq<Line>))
    ensures |r.1| <= |lines|
  {
    if lines == [] then ([], [])
    else if lines[0].fence.Some? then ([], lines[1..])
    else
      var (body, rest) := TakeCode(lines[1..]);
      ([lines[0].raw] + body, rest)
  }

  function TaskOfLine(line: Line): PMNode
    requires line.task.Some?
  {
    var (box, text) := line.task.value;
    TaskNode(box == 'x' || box == 'X', text)
  }

  function TakeTasks(lines: seq<Line>): (r: (seq<PMNode>, seq<Line>))
    ensures |r.1| <= |lines|
  {
    if lines == [] || lines[0].task.None? || lines[0].IsBrokenTask() then ([], lines)
    else
      var (items, rest) := TakeTasks(lines[1..]);
      ([TaskOfLine(lines[0])] + items, rest)
  }

  function TakeBullets(lines: seq<Line>): (r: (seq<PMNode>, seq<Line>))
    ensures |r.1| <= |lines|
  {
    if lines == [] || lines[0].bullet.None? then ([], lines)
    else
      var (items, rest) := TakeBullets(lines[1..]);
      ([ItemNode(lines[0].bullet.value)] + items, rest)
  }

  function TakeNumbered(lines: seq<Line>): (r: (seq<PMNode>, seq<Line>))
    ensures |r.1| <= |lines|
  {
    if lines == [] || lines[0].numbered.None? then ([], lines)
    else
      var (items, rest) := TakeNumbered(lines[1..]);
      ([ItemNode(lines[0].numbered.value)] + items, rest)
  }

  function TakeParagraph(lines: seq<Line>): (r: (seq<string>, seq<Line>))
    ensures |r.1| <= |lines|
  {
    if lines == [] || !lines[0].ContinuesParagraph() then ([], lines)
    else
      var (para, rest) := TakeParagraph(lines[1..]);
      ([lines[0].raw] + para, rest)
  }

  /** One iteration of the outer loop: the block pushed, if any, and the lines left. */
  function ParseStep(lines: seq<Line>): (r: (seq<PMNode>, seq<Line>))
    requires lines != []
    ensures |r.1| <= |lines|
  {
    var line, rest := lines[0], lines[1..];
    if line.fence.Some? then
      var (body, rest') := TakeCode(rest);
      ([CodeNode(Trim(line.fence.value), body)], rest')
    else if line.heading.Some? then
      var (level, text) := line.heading.value;
      ([HeadingNode(level, Trim(text))], rest)
    else if line.rule then ([BlockNode("horizontalRule", NoContent)], rest)
    else if line.task.Some? then
      var (items, rest') := TakeTasks(lines);
      ([BlockNode("taskList", Content(items))], rest')
    else if line.bullet.Some? then
      var (items, rest') := TakeBullets(lines);
      ([BlockNode("bulletList", Content(items))], rest')
    else if line.numbered.Some? then
      var (items, rest') := TakeNumbered(lines);
      ([BlockNode("orderedList", Content(items))], rest')
    else if line.blank then ([], rest)
    else
      var (para, rest') := TakeParagraph(rest);
      ([BlockNode("paragraph", Inline(Join([line.raw] + para, " ")))], rest')
  }

  datatype Outcome = Parsed(blocks: seq<PMNode>) | Hangs

  function ParseBlocks(lines: seq<Line>): Outcome
    decreases |lines|
  {
    if lines == [] then Parsed([])
    else
      var (block, rest) := ParseStep(lines);
      if |rest| == |lines| then Hangs else Prepend(block, ParseBlocks(rest))
  }

  function Prepend(blocks: seq<PMNode>, r: Outcome): Outcome {
    match r
    case Parsed(more) => Parsed(blocks + more)
    case Hangs => Hangs
  }

  /** The document of the blocks; one empty paragraph stands for no block at all. */
  function DocOf(blocks: seq<PMNode>): PMNode {
    BlockNode("doc", Content(if blocks == [] then [BlockNode("paragraph", NoContent)] else blocks))
  }

  /** None when the parser never returns. */
  function FromMarkdown(markdown: string): Option<PMNode> {
    match ParseBlocks(Lines(markdown))
    case Parsed(blocks) => Some(DocOf(blocks))
    case Hangs => None
  }

  // ---------- The parser as a program ----------

  method MarkdownToProseMirrorJson(markdown: string) returns (doc: Option<PMNode>)
    ensures doc == FromMarkdown(markdown)
    ensures doc.None? <==> RunsIntoBrokenTask(Lines(markdown), Elsewhere)
  {
    ReturnsExactlyWithoutBrokenTasks(markdown);
    var r := ScanBlocks(Lines(markdown));
    return match r case Parsed(blocks) => Some(DocOf(blocks)) case Hangs => None;
  }

  /** The outer loop. */
  method ScanBlocks(lines: seq<Line>) returns (r: Outcome)
    ensures r == ParseBlocks(lines)
  {
    var blocks: seq<PMNode> := [];
    var i := 0;
    NothingBefore(lines);
    while i < |lines|
      invariant i <= |lines| && ParseBlocks(lines) == Prepend(blocks, ParseBlocks(lines[i..]))
      decreases |lines| - i
    {
      var block, next := ScanBlock(lines, i);
      OneMoreBlock(lines, i, block, next, blocks);
      if next == i {
        // Nothing was read, so every further iteration would do the same.
        return Hangs;
      }
      blocks := blocks + block;
      i := next;
    }
    NothingAfter(blocks);
    return Parsed(blocks);
  }

  lemma NothingBefore(lines: seq<Line>)
    ensures ParseBlocks(lines) == Prepend([], ParseBlocks(lines[0..]))
  {
    assert lines[0..] == lines;
    PrependNothing(ParseBlocks(lines));
  }

  lemma PrependNothing(r: Outcome)
    ensures Prepend([], r) == r
  {
    assert r.Parsed? ==> [] + r.blocks == r.blocks;
  }

  lemma NothingAfter(blocks: seq<PMNode>)
    ensures Prepend(blocks, ParseBlocks([])) == Parsed(blocks)
  {
    assert blocks + [] == blocks;
  }

  lemma PrependTwice(a: seq<PMNode>, b: seq<PMNode>, r: Outcome)
    ensures Prepend(a, Prepend(b, r)) == Prepend(a + b, r)
  {
    assert r.Parsed? ==> a + (b + r.blocks) == a + b + r.blocks;
  }

  lemma OneMoreBlock(lines: seq<Line>, i: nat, block: seq<PMNode>, next: nat, blocks: seq<PMNode>)
    requires i < |lines| && i <= next <= |lines| && (block, lines[next..]) == ParseStep(lines[i..])
    ensures Prepend(blocks, ParseBlocks(lines[i..])) ==
            if next == i then Hangs else Prepend(blocks + block, ParseBlocks(lines[next..]))
  {
    PrependTwice(blocks, block, ParseBlocks(lines[next..]));
  }

  /** The body of the outer loop. */
  method ScanBlock(lines: seq<Line>, i: nat) returns (block: seq<PMNode>, next: nat)
    requires i < |lines|
    ensures i <= next <= |lines| && (block, lines[next..]) == ParseStep(lines[i..])
  {
    var line := lines[i];
    if line.fence.Some? {
      var body;
      body, next := ScanCode(lines, i + 1);
      return [CodeNode(Trim(line.fence.value), body)], next;
    }
    var h := line.heading;
    if h.Some? {
      return [HeadingNode(h.value.0, Trim(h.value.1))], i + 1;
    }
    if line.rule {
      return [BlockNode("horizontalRule", NoContent)], i + 1;
    }
    if line.task.Some? {
      var items;
      items, next := ScanTasks(lines, i);
      return [BlockNode("taskList", Content(items))], next;
    }
    if line.bullet.Some? {
      var items;
      items, next := ScanBullets(lines, i);
      return [BlockNode("bulletList", Content(items))], next;
    }
    if line.numbered.Some? {
      var items;
      items, next := ScanNumbered(lines, i);
      return [BlockNode("orderedList", Content(items))], next;
    }
    if line.blank {
      return [], i + 1;
    }
    var para;
    para, next := ScanParagraph(lines, i + 1);
    return [BlockNode("paragraph", Inline(Join([line.raw] + para, " ")))], next;
  }

  /** What has been taken, and what the rest of the lines gives. */
  ghost predicate IsSplit<T>(whole: (seq<T>, seq<Line>), taken: seq<T>, rest: (seq<T>, seq<Line>)) {
    whole.0 == taken + rest.0 && whole.1 == rest.1
  }

  lemma SplitStarts<T>(whole: (seq<T>, seq<Line>))
    ensures IsSplit(whole, [], whole)
  {}

  lemma SplitGoesOn<T>(whole: (seq<T>, seq<Line>), taken: seq<T>, item: T,
                       rest: (seq<T>, seq<Line>), rest': (seq<T>, seq<Line>))
    requires IsSplit(whole, taken, rest) && rest == ([item] + rest'.0, rest'.1)
    ensures IsSplit(whole, taken + [item], rest')
  {}

  lemma SplitEnds<T>(whole: (seq<T>, seq<Line>), taken: seq<T>, rest: (seq<T>, seq<Line>))
    requires IsSplit(whole, taken, rest) && rest.0 == []
    ensures whole == (taken, rest.1)
  {
    assert taken + [] == taken;
  }

  /** The step past the closing fence may leave the lines, which ends the parse as well. */
  method ScanCode(lines: seq<Line>, start: nat) returns (body: seq<string>, i: nat)
    requires start <= |lines|
    ensures start <= i <= |lines| && (body, lines[i..]) == TakeCode(lines[start..])
  {
    body, i := [], start;
    SplitStarts(TakeCode(lines[start..]));
    while i < |lines| && !lines[i].fence.Some?
      invariant start <= i <= |lines|
      invariant IsSplit(TakeCode(lines[start..]), body, TakeCode(lines[i..]))
    {
      NextCode(lines, i);
      SplitGoesOn(TakeCode(lines[start..]), body, lines[i].raw, TakeCode(lines[i..]), TakeCode(lines[i + 1..]));
      body := body + [lines[i].raw];
      i := i + 1;
    }
    CodeEnds(lines, i);
    SplitEnds(TakeCode(lines[start..]), body, TakeCode(lines[i..]));
    i := if i < |lines| then i + 1 else i;
  }

  lemma NextCode(lines: seq<Line>, i: nat)
    requires i < |lines| && lines[i].fence.None?
    ensures var (body, rest) := TakeCode(lines[i + 1..]); TakeCode(lines[i..]) == ([lines[i].raw] + body, rest)
  {
    assert lines[i..][1..] == lines[i + 1..];
  }

  lemma CodeEnds(lines: seq<Line>, i: nat)
    requires i <= |lines| && (i < |lines| ==> lines[i].fence.Some?)
    ensures TakeCode(lines[i..]) == ([], if i < |lines| then lines[i + 1..] else lines[i..])
  {
    if i < |lines| {
      assert lines[i..][1..] == lines[i + 1..];
    }
  }

  method ScanTasks(lines: seq<Line>, start: nat) returns (items: seq<PMNode>, i: nat)
    requires start <= |lines|
    ensures start <= i <= |lines| && (items, lines[i..]) == TakeTasks(lines[start..])
  {
    items, i := [], start;
    SplitStarts(TakeTasks(lines[start..]));
    while i < |lines| && lines[i].task.Some?
      invariant start <= i <= |lines|
      invariant IsSplit(TakeTasks(lines[start..]), items, TakeTasks(lines[i..]))
    {
      if lines[i].IsBrokenTask() {
        break;
      }
      var item := TaskOfLine(lines[i]);
      NextTask(lines, i);
      SplitGoesOn(TakeTasks(lines[start..]), items, item, TakeTasks(lines[i..]), TakeTasks(lines[i + 1..]));
      items := items + [item];
      i := i + 1;
    }
    SplitEnds(TakeTasks(lines[start..]), items, TakeTasks(lines[i..]));
  }

  lemma NextTask(lines: seq<Line>, i: nat)
    requires i < |lines| && lines[i].task.Some? && !lines[i].IsBrokenTask()
    ensures var (items, rest) := TakeTasks(lines[i + 1..]);
            TakeTasks(lines[i..]) == ([TaskOfLine(lines[i])] + items, rest)
  {
    assert lines[i..][1..] == lines[i + 1..];
  }

  method ScanBullets(lines: seq<Line>, start: nat) returns (items: seq<PMNode>, i: nat)
    requires start <= |lines|
    ensures start <= i <= |lines| && (items, lines[i..]) == TakeBullets(lines[start..])
  {
    items, i := [], start;
    SplitStarts(TakeBullets(lines[start..]));
    while i < |lines| && lines[i].bullet.Some?
      invariant start <= i <= |lines|
      invariant IsSplit(TakeBullets(lines[start..]), items, TakeBullets(lines[i..]))
    {
      var item := ItemNode(lines[i].bullet.value);
      NextBullet(lines, i);
      SplitGoesOn(TakeBullets(lines[start..]), items, item, TakeBullets(lines[i..]), TakeBullets(lines[i + 1..]));
      items := items + [item];
      i := i + 1;
    }
    SplitEnds(TakeBullets(lines[start..]), items, TakeBullets(lines[i..]));
  }

  lemma NextBullet(lines: seq<Line>, i: nat)
    requires i < |lines| && lines[i].bullet.Some?
    ensures var (items, rest) := TakeBullets(lines[i + 1..]);
            TakeBullets(lines[i..]) == ([ItemNode(lines[i].bullet.value)] + items, rest)
  {
    assert lines[i..][1..] == lines[i + 1..];
  }

  method ScanNumbered(lines: seq<Line>, start: nat) returns (items: seq<PMNode>, i: nat)
    requires start <= |lines|
    ensures start <= i <= |lines| && (items, lines[i..]) == TakeNumbered(lines[start..])
  {
    items, i := [], start;
    SplitStarts(TakeNumbered(lines[start..]));
    while i < |lines| && lines[i].numbered.Some?
      invariant start <= i <= |lines|
      invariant IsSplit(TakeNumbered(lines[start..]), items, TakeNumbered(lines[i..]))
    {
      var item := ItemNode(lines[i].numbered.value);
      NextNumbered(lines, i);
      SplitGoesOn(TakeNumbered(lines[start..]), items, item, TakeNumbered(lines[i..]), TakeNumbered(lines[i + 1..]));
      items := items + [item];
      i := i + 1;
    }
    SplitEnds(TakeNumbered(lines[start..]), items, TakeNumbered(lines[i..]));
  }

  lemma NextNumbered(lines: seq<Line>, i: nat)
    requires i < |lines| && lines[i].numbered.Some?
    ensures var (items, rest) := TakeNumbered(lines[i + 1..]);
            TakeNumbered(lines[i..]) == ([ItemNode(lines[i].numbered.value)] + items, rest)
  {
    assert lines[i..][1..] == lines[i + 1..];
  }

  method ScanParagraph(lines: seq<Line>, start: nat) returns (para: seq<string>, i: nat)
    requires start <= |lines|
    ensures start <= i <= |lines| && (para, lines[i..]) == TakeParagraph(lines[start..])
  {
    para, i := [], start;
    SplitStarts(TakeParagraph(lines[start..]));
    while i < |lines| && lines[i].ContinuesParagraph()
      invariant start <= i <= |lines|
      invariant IsSplit(TakeParagraph(lines[start..]), para, TakeParagraph(lines[i..]))
    {
      var item := lines[i].raw;
      NextLine(lines, i);
      SplitGoesOn(TakeParagraph(lines[start..]), para, item, TakeParagraph(lines[i..]), TakeParagraph(lines[i + 1..]));
      para := para + [item];
      i := i + 1;
    }
    SplitEnds(TakeParagraph(lines[start..]), para, TakeParagraph(lines[i..]));
  }

  lemma NextLine(lines: seq<Line>, i: nat)
    requires i < |lines| && lines[i].ContinuesParagraph()
    ensures var (para, rest) := TakeParagraph(lines[i + 1..]);
            TakeParagraph(lines[i..]) == ([lines[i].raw] + para, rest)
  {
    assert lines[i..][1..] == lines[i + 1..];
  }

  // ---------- When the parser returns ----------

  /** Where a line-by-line scan stands: inside a code block, inside a run of bullets that a plain
    * bullet began, or anywhere else. */
  datatype Mode = Elsewhere | InFence | InBullets

  function NextMode(mode: Mode, line: Line): Mode {
    if mode == InFence then (if line.fence.Some? then Elsewhere else InFence)
    else if line.fence.Some? then InFence
    else if line.bullet.Some? && (mode == InBullets || line.task.None?) then InBullets
    else Elsewhere
  }

  /** Some broken task line is neither code nor part of a run begun by a plain bullet. */
  predicate RunsIntoBrokenTask(lines: seq<Line>, mode: Mode) {
    lines != [] &&
    ((mode == Elsewhere && lines[0].IsBrokenTask()) || RunsIntoBrokenTask(lines[1..], NextMode(mode, lines[0])))
  }

  ghost predicate AreConsistent(lines: seq<Line>) {
    forall i | 0 <= i < |lines| :: lines[i].IsConsistent()
  }

  lemma {:induction false} CodeKeeps(lines: seq<Line>)
    ensures RunsIntoBrokenTask(lines, InFence) <==> RunsIntoBrokenTask(TakeCode(lines).1, Elsewhere)
  {
    if lines != [] && !lines[0].fence.Some? {
      CodeKeeps(lines[1..]);
    }
  }

  lemma {:induction false} TasksKeep(lines: seq<Line>)
    requires AreConsistent(lines)
    ensures RunsIntoBrokenTask(lines, Elsewhere) <==> RunsIntoBrokenTask(TakeTasks(lines).1, Elsewhere)
  {
    if lines != [] && lines[0].task.Some? && !lines[0].IsBrokenTask() {
      TasksKeep(lines[1..]);
    }
  }

  lemma {:induction false} BulletsKeep(lines: seq<Line>)
    requires AreConsistent(lines)
    ensures RunsIntoBrokenTask(lines, InBullets) <==> RunsIntoBrokenTask(TakeBullets(lines).1, Elsewhere)
  {
    if lines != [] && lines[0].bullet.Some? {
      BulletsKeep(lines[1..]);
    }
  }

  lemma {:induction false} NumberedKeep(lines: seq<Line>)
    requires AreConsistent(lines)
    ensures RunsIntoBrokenTask(lines, Elsewhere) <==> RunsIntoBrokenTask(TakeNumbered(lines).1, Elsewhere)
  {
    if lines != [] && lines[0].numbered.Some? {
      NumberedKeep(lines[1..]);
    }
  }

  lemma {:induction false} ParagraphKeeps(lines: seq<Line>)
    requires AreConsistent(lines)
    ensures RunsIntoBrokenTask(lines, Elsewhere) <==> RunsIntoBrokenTask(TakeParagraph(lines).1, Elsewhere)
  {
    if lines != [] && lines[0].ContinuesParagraph() {
      ParagraphKeeps(lines[1..]);
    }
  }

  /** A run of lines that begins with a good line leaves the question to the lines after it. */
  ghost predicate Leaves(lines: seq<Line>, rest: seq<Line>) {
    |rest| < |lines| && (RunsIntoBrokenTask(lines, Elsewhere) <==> RunsIntoBrokenTask(rest, Elsewhere))
  }

  lemma FenceLeaves(lines: seq<Line>)
    requires lines != [] && lines[0].IsConsistent() && lines[0].fence.Some?
    ensures !lines[0].IsBrokenTask() && Leaves(lines, TakeCode(lines[1..]).1)
  {
    CodeKeeps(lines[1..]);
  }

  lemma TaskLeaves(lines: seq<Line>)
    requires lines != [] && AreConsistent(lines) && lines[0].task.Some?
    ensures if lines[0].IsBrokenTask() then TakeTasks(lines).1 == lines else Leaves(lines, TakeTasks(lines).1)
  {
    TasksKeep(lines);
  }

  lemma BulletLeaves(lines: seq<Line>)
    requires lines != [] && AreConsistent(lines) && lines[0].bullet.Some? && lines[0].task.None?
    ensures Leaves(lines, TakeBullets(lines).1)
  {
    BulletsKeep(lines[1..]);
  }

  lemma NumberedLeaves(lines: seq<Line>)
    requires lines != [] && AreConsistent(lines) && lines[0].numbered.Some?
    ensures !lines[0].IsBrokenTask() && Leaves(lines, TakeNumbered(lines).1)
  {
    NumberedKeep(lines[1..]);
  }

  lemma PlainLeaves(lines: seq<Line>)
    requires lines != [] && AreConsistent(lines) && lines[0].fence.None? && lines[0].bullet.None?
    ensures !lines[0].IsBrokenTask() && Leaves(lines, lines[1..]) && Leaves(lines, TakeParagraph(lines[1..]).1)
  {
    ParagraphKeeps(lines[1..]);
  }

  /** What one iteration leaves, by the kind of its first line. */
  lemma StepRest(lines: seq<Line>)
    requires lines != []
    ensures var line, rest := lines[0], ParseStep(lines).1;
            if line.fence.Some? then rest == TakeCode(lines[1..]).1
            else if line.heading.Some? || line.rule then rest == lines[1..]
            else if line.task.Some? then rest == TakeTasks(lines).1
            else if line.bullet.Some? then rest == TakeBullets(lines).1
            else if line.numbered.Some? then rest == TakeNumbered(lines).1
            else rest == lines[1..] || rest == TakeParagraph(lines[1..]).1
  {}

  lemma StepKeeps(lines: seq<Line>)
    requires lines != [] && AreConsistent(lines)
    ensures var rest := ParseStep(lines).1;
            if lines[0].IsBrokenTask() then |rest| == |lines| else Leaves(lines, rest)
  {
    var line := lines[0];
    StepRest(lines);
    if line.fence.Some? {
      FenceLeaves(lines);
    } else if line.task.Some? {
      TaskLeaves(lines);
    } else if line.bullet.Some? {
      BulletLeaves(lines);
    } else {
      PlainLeaves(lines);
      if line.numbered.Some? {
        NumberedLeaves(lines);
      }
    }
  }

  lemma {:induction false} TakesLeaveTail(lines: seq<Line>)
    requires AreConsistent(lines)
    ensures AreConsistent(TakeCode(lines).1) && AreConsistent(TakeTasks(lines).1)
    ensures AreConsistent(TakeBullets(lines).1) && AreConsistent(TakeNumbered(lines).1)
    ensures AreConsistent(TakeParagraph(lines).1)
  {
    if lines != [] {
      TakesLeaveTail(lines[1..]);
    }
  }

  lemma StepLeavesTail(lines: seq<Line>)
    requires lines != [] && AreConsistent(lines)
    ensures AreConsistent(ParseStep(lines).1)
  {
    TakesLeaveTail(lines);
    TakesLeaveTail(lines[1..]);
  }

  /** The parser fails to return exactly when a broken task line stands where a list could start:
    * a single pass over the lines decides it. */
  lemma {:induction false} HangsExactlyOnBrokenTasks(lines: seq<Line>)
    requires AreConsistent(lines)
    ensures ParseBlocks(lines).Hangs? <==> RunsIntoBrokenTask(lines, Elsewhere)
    decreases |lines|
  {
    if lines != [] {
      StepKeeps(lines);
      var rest := ParseStep(lines).1;
      if |rest| < |lines| {
        StepLeavesTail(lines);
        HangsExactlyOnBrokenTasks(rest);
      }
    }
  }

  lemma LinesAreConsistent(markdown: string)
    ensures AreConsistent(Lines(markdown))
  {
    forall i | 0 <= i < |Lines(markdown)| ensures Lines(markdown)[i].IsConsistent() {
      ReadAt(Read, Split(markdown), i);
      ReadIsConsistent(Split(markdown)[i]);
    }
  }

  /** The parser returns on exactly the texts whose scan meets no broken task line. */
  lemma ReturnsExactlyWithoutBrokenTasks(markdown: string)
    ensures FromMarkdown(markdown).Some? <==> !RunsIntoBrokenTask(Lines(markdown), Elsewhere)
  {
    LinesAreConsistent(markdown);
    HangsExactlyOnBrokenTasks(Lines(markdown));
  }

  /** A hanging iteration leaves its line unread and pushes one more empty list. */
  lemma BrokenTaskIsNotRead(lines: seq<Line>)
    requires lines != [] && lines[0].IsBrokenTask() && lines[0].IsConsistent()
    ensures ParseStep(lines) == ([BlockNode("taskList", Content([]))], lines)
  {}

  lemma {:induction false} UnbrokenLines(lines: seq<Line>, mode: Mode)
    requires forall i | 0 <= i < |lines| :: !lines[i].IsBrokenTask()
    ensures !RunsIntoBrokenTask(lines, mode)
  {
    if lines != [] {
      UnbrokenLines(lines[1..], NextMode(mode, lines[0]));
    }
  }

  /** Without carriage returns and Unicode line separators the parser always returns. */
  lemma PlainTextParses(markdown: string)
    requires '\r' !in markdown && '\U{2028}' !in markdown && '\U{2029}' !in markdown
    ensures FromMarkdown(markdown).Some?
  {
    PlainPieces(markdown);
    forall i | 0 <= i < |Lines(markdown)| ensures !Lines(markdown)[i].IsBrokenTask() {
      assert Split(markdown)[i] in Split(markdown);
      ReadAt(Read, Split(markdown), i);
      PlainLineIsNotBroken(Split(markdown)[i]);
    }
    UnbrokenLines(Lines(markdown), Elsewhere);
    ReturnsExactlyWithoutBrokenTasks(markdown);
  }

  lemma PlainLineIsNotBroken(raw: string)
    requires OnOneLine(raw)
    ensures !Read(raw).IsBrokenTask()
  {
    if TaskOf(raw).Some? {
      TaskTextIsInside(raw);
    }
  }

  lemma {:induction false} PlainPieces(s: string)
    requires forall c <- s :: c == '\n' || !IsLineTerminator(c)
    ensures forall l <- Split(s) :: OnOneLine(l)
  {
    if s != "" {
      assert s[0] in s && forall c <- s[1..] :: c in s;
      PlainPieces(s[1..]);
      var first := Split(s[1..])[0];
      assert OnOneLine(first);
      assert s[0] != '\n' ==> OnOneLine([s[0]] + first);
    }
  }

  /** A single task line is enough to hang, whatever its text, once a carriage return or a Unicode
    * line separator is in it. */
  lemma TaskWithSeparatorHangs(box: char, text: string)
    requires box == ' ' || box == 'x' || box == 'X'
    requires text != "" && !IsSpace(text[0]) && '\n' !in text
    requires '\r' in text || '\U{2028}' in text || '\U{2029}' in text
    ensures FromMarkdown("- [" + [box] + "] " + text).None?
  {
    var line := "- [" + [box] + "] " + text;
    SplitOneLine(line);
    ReadTask(box, text);
    ReadAt(Read, [line], 0);
    StartsBroken(Lines(line));
    ReturnsExactlyWithoutBrokenTasks(line);
  }

  lemma StartsBroken(lines: seq<Line>)
    requires lines != [] && lines[0].IsBrokenTask()
    ensures RunsIntoBrokenTask(lines, Elsewhere)
  {}

  lemma CarriageReturnHangs()
    ensures FromMarkdown("- [" + [' '] + "] " + "a\rb").None?
  {
    var text := "a\rb";
    assert text[1] == '\r' && text[1] in text;
    TaskWithSeparatorHangs(' ', text);
  }
}
