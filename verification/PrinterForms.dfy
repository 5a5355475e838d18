/** What the printer writes for each kind of node: marks around a text, mentions, images, quotes, nested
  * lists, and blocks that print as nothing. */
module PrinterForms {
  import opened Results
  import opened JsText
  import opened ProseMirror

  // ---------- Marks ----------

  ghost predicate HasMark(marks: seq<PMMark>, kind: string) {
    exists i | 0 <= i < |marks| :: marks[i].kind == kind
  }

  lemma {:induction false} MarkIsFound(marks: seq<PMMark>, kind: string)
    ensures FindMark(marks, kind).Some? <==> HasMark(marks, kind)
  {
    if marks != [] && marks[0].kind != kind {
      MarkIsFound(marks[1..], kind);
      assert HasMark(marks[1..], kind) ==> HasMark(marks, kind) by {
        if i :| 0 <= i < |marks[1..]| && marks[1..][i].kind == kind {
          assert marks[i + 1].kind == kind;
        }
      }
      if i :| 0 <= i < |marks| && marks[i].kind == kind {
        assert marks[1..][i - 1].kind == kind;
      }
    }
  }

  function When(condition: bool, sign: string): string {
    if condition then sign else ""
  }

  /** The signs in front of a text, outermost first. */
  ghost function SignsBefore(marks: seq<PMMark>): string {
    When(HasMark(marks, "link"), "[") + InnerSigns(marks)
  }

  ghost function InnerSigns(marks: seq<PMMark>): string {
    When(HasMark(marks, "strike"), "~~") + (When(HasMark(marks, "bold"), "**") +
    (When(HasMark(marks, "italic"), "*") + When(HasMark(marks, "code"), "`")))
  }

  /** The signs behind a text, innermost first, without those of the link. */
  ghost function SignsBehind(marks: seq<PMMark>): string {
    When(HasMark(marks, "code"), "`") + When(HasMark(marks, "italic"), "*") + When(HasMark(marks, "bold"), "**") +
    When(HasMark(marks, "strike"), "~~")
  }

  function Marked(text: string, marks: seq<PMMark>): PMNode {
    PMNode("text", None, NoContent, Some(marks), Some(text))
  }

  lemma Around(condition: bool, sign: string, before: string, text: string, behind: string)
    ensures (if condition then sign + (before + text + behind) + sign else before + text + behind) ==
            (When(condition, sign) + before) + text + (behind + When(condition, sign))
  {
    if condition {
      assert sign + (before + text + behind) + sign == (sign + before) + text + (behind + sign);
    } else {
      assert "" + before == before && behind + "" == behind;
    }
  }

  lemma Linked(before: string, text: string, behind: string, href: string)
    ensures "[" + (before + text + behind) + "](" + href + ")" ==
            ("[" + before) + text + (behind + "](" + href + ")")
  {}

  lemma FourFound(marks: seq<PMMark>)
    ensures FindMark(marks, "code").Some? == HasMark(marks, "code")
    ensures FindMark(marks, "italic").Some? == HasMark(marks, "italic")
    ensures FindMark(marks, "bold").Some? == HasMark(marks, "bold")
    ensures FindMark(marks, "strike").Some? == HasMark(marks, "strike")
  {
    MarkIsFound(marks, "code");
    MarkIsFound(marks, "italic");
    MarkIsFound(marks, "bold");
    MarkIsFound(marks, "strike");
  }

  /** Whatever the order of the marks, code stands innermost, then italic, bold and strike; other marks
    * print nothing. */
  lemma MarksStandInOrder(text: string, marks: seq<PMMark>)
    requires !HasMark(marks, "link")
    ensures RenderText(Marked(text, marks)) == SignsBefore(marks) + text + SignsBehind(marks)
  {
    FourFound(marks);
    MarkIsFound(marks, "link");
    var c, i := HasMark(marks, "code"), HasMark(marks, "italic");
    FourLayers(c, i, HasMark(marks, "bold"), HasMark(marks, "strike"), text);
    assert "" + InnerSigns(marks) == InnerSigns(marks);
  }

  lemma {:induction false} FirstIsFound(marks: seq<PMMark>, k: nat, kind: string)
    requires k < |marks| && marks[k].kind == kind && forall i | 0 <= i < k :: marks[i].kind != kind
    ensures FindMark(marks, kind) == Some(marks[k])
  {
    if k > 0 {
      assert marks[0].kind != kind;
      FirstIsFound(marks[1..], k - 1, kind);
    }
  }

  /** The first link stands around everything, with its target, or nothing when that is no text. */
  lemma LinkStandsAround(text: string, marks: seq<PMMark>, k: nat)
    requires k < |marks| && marks[k].kind == "link" && forall i | 0 <= i < k :: marks[i].kind != "link"
    ensures var attrs := marks[k].attrs;
            var href := if "href" in attrs && attrs["href"].Text? then attrs["href"].text else "";
            RenderText(Marked(text, marks)) == SignsBefore(marks) + text + (SignsBehind(marks) + "](" + href + ")")
  {
    FourFound(marks);
    FirstIsFound(marks, k, "link");
    var c, i := HasMark(marks, "code"), HasMark(marks, "italic");
    FourLayers(c, i, HasMark(marks, "bold"), HasMark(marks, "strike"), text);
    var attrs := marks[k].attrs;
    Linked(InnerSigns(marks), text, SignsBehind(marks), TextOf(if "href" in attrs then Some(attrs["href"]) else None));
  }

  /** The wrapping of the printer, one kind of mark after the other. */
  function Layers(c: bool, i: bool, b: bool, s: bool, text: string): string {
    var t := if c then "`" + text + "`" else text;
    var t := if i then "*" + t + "*" else t;
    var t := if b then "**" + t + "**" else t;
    if s then "~~" + t + "~~" else t
  }

  lemma FourLayers(c: bool, i: bool, b: bool, s: bool, text: string)
    ensures Layers(c, i, b, s, text) ==
            (When(s, "~~") + (When(b, "**") + (When(i, "*") + When(c, "`")))) + text +
            (When(c, "`") + When(i, "*") + When(b, "**") + When(s, "~~"))
  {
    assert "" + text + "" == text;
    Around(c, "`", "", text, "");
    assert When(c, "`") + "" == When(c, "`") && "" + When(c, "`") == When(c, "`");
    Around(i, "*", When(c, "`"), text, When(c, "`"));
    Around(b, "**", When(i, "*") + When(c, "`"), text, When(c, "`") + When(i, "*"));
    Around(s, "~~", When(b, "**") + (When(i, "*") + When(c, "`")), text,
           When(c, "`") + When(i, "*") + When(b, "**"));
  }

  // ---------- Inline nodes ----------

  /** A node without children of its own. */
  function Bare(kind: string, attrs: Attrs): PMNode {
    PMNode(kind, Some(attrs), NoContent, None, None)
  }

  function TextIn(attrs: Attrs, name: string): string {
    if name in attrs && attrs[name].Text? then attrs[name].text else ""
  }

  /** Breaks, mentions and images: a mention of a task is marked with a hash, any other one with an at sign,
    * and shows its label, or its id when the label is empty or missing. */
  lemma InlineForms(attrs: Attrs, name: string)
    requires name == if TextIn(attrs, "label") != "" then TextIn(attrs, "label") else TextIn(attrs, "id")
    ensures RenderInlineNode(Bare("hardBreak", attrs)) == "  \n"
    ensures "kind" in attrs && attrs["kind"] == Text("task") ==> RenderInlineNode(Bare("mention", attrs)) == "#" + name
    ensures !("kind" in attrs && attrs["kind"] == Text("task")) ==>
              RenderInlineNode(Bare("mention", attrs)) == "@" + name
    ensures RenderInlineNode(Bare("image", attrs)) ==
            "![" + TextIn(attrs, "alt") + "](" + TextIn(attrs, "src") + ")"
  {
    assert Bare("mention", attrs).TextAttr("label") == TextIn(attrs, "label");
  }

  lemma {:induction false} InlineConcat(a: seq<PMNode>, b: seq<PMNode>)
    ensures RenderInlineNodes(a + b) == RenderInlineNodes(a) + RenderInlineNodes(b)
  {
    if a == [] {
      assert a + b == b;
    } else {
      assert (a + b)[1..] == a[1..] + b;
      InlineConcat(a[1..], b);
    }
  }

  /** A node of any other kind shows what is in it: its children, or else its text. */
  lemma OtherNodesShowContent(node: PMNode, depth: nat)
    requires node.kind !in ["text", "hardBreak", "mention", "image"]
    requires node.kind !in ["heading", "bulletList", "orderedList", "taskList", "blockquote", "codeBlock"]
    requires node.kind != "horizontalRule"
    ensures RenderBlock(node, depth) == RenderInline(node.content)
    ensures RenderInlineNode(node) ==
            if node.content.Content? then RenderInline(node.content)
            else if node.text.Some? then node.text.value else ""
  {}

  // ---------- Quotes and nested lists ----------

  function Block(kind: string, nodes: seq<PMNode>): PMNode {
    PMNode(kind, None, Content(nodes), None, None)
  }

  /** Every line of a quote starts with `> `, and what follows are the lines of its blocks with an empty
    * line between any two of them. */
  lemma QuoteIsMarked(nodes: seq<PMNode>, depth: nat, i: nat)
    requires var inner := Split(Join(RenderNodes(Blocks, nodes, depth), "\n\n")); i < |inner|
    ensures var inner := Split(Join(RenderNodes(Blocks, nodes, depth), "\n\n"));
            var lines := Split(RenderBlock(Block("blockquote", nodes), depth));
            |lines| == |inner| && lines[i] == "> " + inner[i]
  {
    var text := Join(RenderNodes(Blocks, nodes, depth), "\n\n");
    JoinSplit(text);
    var quoted := Quote(Split(text));
    forall l | l in quoted ensures '\n' !in l {
      var k :| 0 <= k < |quoted| && quoted[k] == l;
      assert Split(text)[k] in Split(text);
    }
    SplitJoin(quoted);
  }

  function Words(text: string): PMNode {
    Block("paragraph", [Marked(text, [])])
  }

  lemma WordsPrint(text: string)
    ensures RenderInline(Words(text).content) == text
  {
    var node := Marked(text, []);
    assert RenderInlineNodes([node]) == RenderInlineNode(node) + RenderInlineNodes([]);
  }

  lemma OnePart(style: Style, a: PMNode, rest: seq<PMNode>, depth: nat)
    ensures RenderNodes(style, [a] + rest, depth) ==
            [RenderAs(style, a, depth)] + RenderNodes(style.Next(), rest, depth)
  {
    assert ([a] + rest)[1..] == rest;
  }

  lemma TwoParts(style: Style, a: PMNode, b: PMNode, depth: nat)
    ensures RenderNodes(style, [a, b], depth) == [RenderAs(style, a, depth), RenderAs(style.Next(), b, depth)]
  {
    assert [a, b] == [a] + [b] && [b] == [b] + [];
    OnePart(style, a, [b], depth);
    OnePart(style.Next(), b, [], depth);
  }

  lemma JoinTwo(a: string, b: string, sep: string)
    ensures Join([a, b], sep) == a + sep + b
  {
    assert [a, b][1..] == [b];
  }

  lemma PartsPrint(text: string, list: PMNode, depth: nat)
    requires IsList(list)
    ensures RenderAs(ItemParts(true), Words(text), depth) == text && RenderAs(TaskParts, Words(text), depth) == text
    ensures RenderAs(ItemParts(false), list, depth) == "\n" + RenderBlock(list, depth + 1)
    ensures RenderAs(ItemParts(true), list, depth) == RenderBlock(list, depth + 1)
    ensures RenderAs(TaskParts, list, depth) == RenderBlock(list, depth + 1)
  {
    WordsPrint(text);
    assert "" + RenderBlock(list, depth + 1) == RenderBlock(list, depth + 1);
  }

  /** A list in a list item follows its text after an empty line, indented by two more blanks; in a task item
    * it follows on the next line. */
  lemma NestedListPrints(text: string, list: PMNode, depth: nat, marker: string)
    requires IsList(list)
    ensures RenderListItem(Block("listItem", [Words(text), list]), depth, marker) ==
            Repeat("  ", depth) + marker + " " + (text + "\n" + ("\n" + RenderBlock(list, depth + 1)))
    ensures RenderTaskItem(Block("taskItem", [Words(text), list]), depth) ==
            Repeat("  ", depth) + "- [" + " " + "] " + (text + "\n" + RenderBlock(list, depth + 1))
  {
    PartsPrint(text, list, depth);
    TwoParts(ItemParts(true), Words(text), list, depth);
    TwoParts(TaskParts, Words(text), list, depth);
    JoinTwo(text, "\n" + RenderBlock(list, depth + 1), "\n");
    JoinTwo(text, RenderBlock(list, depth + 1), "\n");
  }

  lemma {:induction false} PartsHaveStyle(style: Style, nodes: seq<PMNode>, depth: nat, i: nat)
    requires i < |nodes| && (style == Bullets || style == Tasks || style.Numbered?)
    ensures var parts := RenderNodes(style, nodes, depth);
            var at := if style.Numbered? then Numbered(style.index + i) else style;
            |parts| == |nodes| && parts[i] == RenderAs(at, nodes[i], depth)
    decreases nodes
  {
    if |nodes| > 1 {
      PartsHaveStyle(style.Next(), nodes[1..], depth, if i > 0 then i - 1 else 0);
    } else {
      assert nodes[1..] == [];
    }
  }

  /** The items of a list print one after the other: with a dash, with their number from 1 on, or with a box
    * that is ticked when the item is checked. */
  lemma ListItemsPrint(nodes: seq<PMNode>, depth: nat, i: nat)
    requires i < |nodes|
    ensures |RenderNodes(Bullets, nodes, depth)| == |RenderNodes(Numbered(0), nodes, depth)| == |nodes|
    ensures RenderNodes(Bullets, nodes, depth)[i] == RenderListItem(nodes[i], depth, "-")
    ensures RenderNodes(Numbered(0), nodes, depth)[i] == RenderListItem(nodes[i], depth, Decimal(i + 1) + ".")
    ensures |RenderNodes(Tasks, nodes, depth)| == |nodes|
    ensures nodes[i].content == NoContent ==>
              RenderNodes(Tasks, nodes, depth)[i] ==
              Repeat("  ", depth) + "- [" + (if nodes[i].Attr("checked") == Some(Flag(true)) then "x" else " ") + "] "
    ensures RenderBlock(Block("bulletList", nodes), depth) == Join(RenderNodes(Bullets, nodes, depth), "\n")
    ensures RenderBlock(Block("orderedList", nodes), depth) == Join(RenderNodes(Numbered(0), nodes, depth), "\n")
    ensures RenderBlock(Block("taskList", nodes), depth) == Join(RenderNodes(Tasks, nodes, depth), "\n")
  {
    PartsHaveStyle(Bullets, nodes, depth, i);
    PartsHaveStyle(Numbered(0), nodes, depth, i);
    PartsHaveStyle(Tasks, nodes, depth, i);
    if nodes[i].content == NoContent {
      assert Join(RenderEach(TaskParts, NoContent, depth), "\n") == "";
    }
  }

  /** Headings, code blocks and rules. */
  lemma PlainBlocksPrint(attrs: Attrs, text: string, level: nat, depth: nat)
    requires 1 <= level <= 6 && "level" in attrs && attrs["level"] == Number(level as real)
    ensures RenderBlock(PMNode("heading", Some(attrs), Words(text).content, None, None), depth) ==
            Repeat("#", level) + " " + text
    ensures RenderBlock(PMNode("codeBlock", Some(attrs), Words(text).content, None, None), depth) ==
            "```" + TextIn(attrs, "language") + "\n" + text + "\n```"
    ensures RenderBlock(Bare("horizontalRule", attrs), depth) == "---"
  {
    WordsPrint(text);
    assert (level as real).Floor == level;
    var nodes := [Marked(text, [])];
    assert RawText(nodes) == text + RawText(nodes[1..]) && text + "" == text;
  }

  // ---------- Blocks that print as nothing ----------

  lemma {:induction false} BlocksConcat(a: seq<PMNode>, b: seq<PMNode>)
    ensures TopBlocks(a + b) == TopBlocks(a) + TopBlocks(b)
  {
    if a == [] {
      assert a + b == b;
    } else {
      assert (a + b)[1..] == a[1..] + b;
      BlocksConcat(a[1..], b);
      NextBlock(a + b, 0);
      NextBlock(a, 0);
      assert (a + b)[0..] == a + b && a[0..] == a;
    }
  }

  lemma OneBlock(node: PMNode)
    ensures TopBlocks([node]) == if RenderBlock(node, 0) != "" then [RenderBlock(node, 0)] else []
  {
    NextBlock([node], 0);
    assert [node][0..] == [node] && [node][1..] == [];
    assert TopBlocks([]) == [];
  }

  lemma NothingBetween(a: seq<PMNode>, empty: PMNode, b: seq<PMNode>)
    requires RenderBlock(empty, 0) == ""
    ensures TopBlocks(a + [empty] + b) == TopBlocks(a + b)
  {
    BlocksConcat(a + [empty], b);
    BlocksConcat(a, [empty]);
    BlocksConcat(a, b);
    OneBlock(empty);
    assert TopBlocks(a) + [] == TopBlocks(a);
  }

  /** A block that prints as nothing leaves no trace, not even an empty line. */
  lemma EmptyBlockLeavesNoTrace(a: seq<PMNode>, empty: PMNode, b: seq<PMNode>)
    requires RenderBlock(empty, 0) == ""
    ensures PrintNodes(a + [empty] + b) == PrintNodes(a + b)
  {
    NothingBetween(a, empty, b);
  }

  /** Blocks that print as something are kept apart by one empty line. */
  lemma BlocksAreKeptApart(a: PMNode, b: PMNode)
    requires RenderBlock(a, 0) != "" && RenderBlock(b, 0) != ""
    ensures PrintNodes([a, b]) == Trim(RenderBlock(a, 0) + "\n\n" + RenderBlock(b, 0))
  {
    OneBlock(a);
    OneBlock(b);
    BlocksConcat([a], [b]);
    assert [a] + [b] == [a, b];
    TwoBlocks(TopBlocks([a, b]), RenderBlock(a, 0), RenderBlock(b, 0));
  }

  lemma TwoBlocks(parts: seq<string>, a: string, b: string)
    requires parts == [a] + [b]
    ensures Join(parts, "\n\n") == a + "\n\n" + b
  {
    assert parts == [a, b];
    JoinTwo(a, b, "\n\n");
  }
}
