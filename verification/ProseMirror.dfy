/** Documents as JSON trees, and the printer that turns them into Markdown. */
module ProseMirror {
  import opened Results
  import opened JsText

  /** Attribute values by their runtime type; everything the code never looks into is `Other`. */
  datatype AttrValue = Text(text: string) | Number(number: real) | Flag(flag: bool) | Other

  type Attrs = map<string, AttrValue>

  datatype PMMark = PMMark(kind: string, attrs: Attrs)

  /** The optional list of children. */
  datatype PMContent = NoContent | Content(nodes: seq<PMNode>)

  datatype PMNode = PMNode(kind: string, attrs: Option<Attrs>, content: PMContent,
                           marks: Option<seq<PMMark>>, text: Option<string>)
  {
    /** The children, none when the list is missing. */
    function Children(): seq<PMNode> {
      match content
      case NoContent => []
      case Content(nodes) => nodes
    }

    function Attr(name: string): Option<AttrValue> {
      if attrs.Some? && name in attrs.value then Some(attrs.value[name]) else None
    }

    function TextAttr(name: string): string {
      TextOf(Attr(name))
    }
  }

  /** A string attribute, or the empty string when it is missing or of another type. */
  function TextOf(value: Option<AttrValue>): string {
    if value.Some? && value.value.Text? then value.value.text else ""
  }

  /** A level between 1 and 6 is rounded down, one outside is moved to the nearer end, and what is no number
    * counts as 1. */
  function ClampLevel(level: Option<AttrValue>): (r: nat)
    ensures 1 <= r <= 6
    ensures match level
            case Some(Number(x)) =>
              if x < 1.0 then r == 1 else if x > 6.0 then r == 6 else r as real <= x < r as real + 1.0
            case _ => r == 1
  {
    if level.None? || !level.value.Number? then 1
    else if level.value.number < 1.0 then 1
    else if level.value.number > 6.0 then 6
    else level.value.number.Floor
  }

  function FindMark(marks: seq<PMMark>, kind: string): Option<PMMark> {
    if marks == [] then None
    else if marks[0].kind == kind then Some(marks[0])
    else FindMark(marks[1..], kind)
  }

  function RenderText(node: PMNode): string {
    var marks := if node.marks.Some? then node.marks.value else [];
    var text := if node.text.Some? then node.text.value else "";
    var text := if FindMark(marks, "code").Some? then "`" + text + "`" else text;
    var text := if FindMark(marks, "italic").Some? then "*" + text + "*" else text;
    var text := if FindMark(marks, "bold").Some? then "**" + text + "**" else text;
    var text := if FindMark(marks, "strike").Some? then "~~" + text + "~~" else text;
    match FindMark(marks, "link")
    case None => text
    case Some(link) =>
      var href := TextOf(if "href" in link.attrs then Some(link.attrs["href"]) else None);
      "[" + text + "](" + href + ")"
  }

  /** The inline children, one after the other; none when the list is missing. */
  function RenderInline(content: PMContent): string
    decreases content, 2
  {
    match content
    case NoContent => ""
    case Content(nodes) => RenderInlineNodes(nodes)
  }

  function RenderInlineNodes(nodes: seq<PMNode>): string
    decreases nodes, 1
  {
    if nodes == [] then "" else RenderInlineNode(nodes[0]) + RenderInlineNodes(nodes[1..])
  }

  function RenderInlineNode(node: PMNode): string
    decreases node, 0
  {
    match node.kind
    case "text" => RenderText(node)
    case "hardBreak" => "  \n"
    case "mention" =>
      var isTask := node.Attr("kind") == Some(Text("task"));
      var name := node.TextAttr("label");
      (if isTask then "#" else "@") + if name != "" then name else node.TextAttr("id")
    case "image" => "![" + node.TextAttr("alt") + "](" + node.TextAttr("src") + ")"
    case _ =>
      if node.content.Content? then RenderInline(node.content)
      else if node.text.Some? then node.text.value
      else ""
  }

  /** The ways in which the children of a block are printed. */
  datatype Style =
    | Blocks
    | Bullets
    | Numbered(index: nat)
    | Tasks
    | ItemParts(first: bool)
    | TaskParts
  {
    /** The style of the next child. */
    function Next(): Style {
      match this
      case Numbered(index) => Numbered(index + 1)
      case ItemParts(_) => ItemParts(false)
      case _ => this
    }
  }

  predicate IsList(node: PMNode) {
    node.kind == "bulletList" || node.kind == "orderedList" || node.kind == "taskList"
  }

  function RenderBlock(node: PMNode, depth: nat): string
    decreases node, 0
  {
    match node.kind
    case "paragraph" => RenderInline(node.content)
    case "heading" => Repeat("#", ClampLevel(node.Attr("level"))) + " " + RenderInline(node.content)
    case "bulletList" => Join(RenderEach(Bullets, node.content, depth), "\n")
    case "orderedList" => Join(RenderEach(Numbered(0), node.content, depth), "\n")
    case "taskList" => Join(RenderEach(Tasks, node.content, depth), "\n")
    case "blockquote" => Join(Quote(Split(Join(RenderEach(Blocks, node.content, depth), "\n\n"))), "\n")
    case "codeBlock" => "```" + node.TextAttr("language") + "\n" + RawText(node.Children()) + "\n```"
    case "horizontalRule" => "---"
    case _ => RenderInline(node.content)
  }

  function RawText(nodes: seq<PMNode>): string {
    if nodes == [] then ""
    else (if nodes[0].text.Some? then nodes[0].text.value else "") + RawText(nodes[1..])
  }

  function Quote(lines: seq<string>): seq<string> {
    seq(|lines|, i requires 0 <= i < |lines| => "> " + lines[i])
  }

  function RenderEach(style: Style, content: PMContent, depth: nat): seq<string>
    decreases content, 3
  {
    match content
    case NoContent => []
    case Content(nodes) => RenderNodes(style, nodes, depth)
  }

  function RenderNodes(style: Style, nodes: seq<PMNode>, depth: nat): seq<string>
    decreases nodes, 2
  {
    if nodes == [] then []
    else [RenderAs(style, nodes[0], depth)] + RenderNodes(style.Next(), nodes[1..], depth)
  }

  function RenderAs(style: Style, node: PMNode, depth: nat): string
    decreases node, 1
  {
    match style
    case Blocks => RenderBlock(node, depth)
    case Bullets => RenderListItem(node, depth, "-")
    case Numbered(index) => RenderListItem(node, depth, Decimal(index + 1) + ".")
    case Tasks => RenderTaskItem(node, depth)
    case ItemParts(first) =>
      if node.kind == "paragraph" then RenderInline(node.content)
      else if IsList(node) then (if first then "" else "\n") + RenderBlock(node, depth + 1)
      else RenderBlock(node, depth + 1)
    case TaskParts =>
      if node.kind == "paragraph" then RenderInline(node.content) else RenderBlock(node, depth + 1)
  }

  function RenderListItem(node: PMNode, depth: nat, marker: string): string
    decreases node, 0
  {
    Repeat("  ", depth) + marker + " " + Join(RenderEach(ItemParts(true), node.content, depth), "\n")
  }

  function RenderTaskItem(node: PMNode, depth: nat): string
    decreases node, 0
  {
    var checked := node.Attr("checked") == Some(Flag(true));
    Repeat("  ", depth) + "- [" + (if checked then "x" else " ") + "] " +
    Join(RenderEach(TaskParts, node.content, depth), "\n")
  }

  function NonEmpty(parts: seq<string>): seq<string> {
    if parts == [] then []
    else (if parts[0] != "" then [parts[0]] else []) + NonEmpty(parts[1..])
  }

  /** The printed top-level blocks that are not empty. */
  function TopBlocks(nodes: seq<PMNode>): seq<string> {
    NonEmpty(RenderNodes(Blocks, nodes, 0))
  }

  /** What the printer makes of a document. */
  function ToMarkdown(doc: PMNode): string {
    PrintNodes(doc.Children())
  }

  function PrintNodes(nodes: seq<PMNode>): string {
    Trim(Join(TopBlocks(nodes), "\n\n"))
  }

  /** The printer; a missing document prints as nothing. */
  method ProseMirrorJsonToMarkdown(doc: Option<PMNode>) returns (markdown: string)
    ensures markdown == if doc.Some? then ToMarkdown(doc.value) else ""
  {
    if doc.None? {
      return "";
    }
    var blocks := RenderTop(doc.value.Children());
    return Trim(Join(blocks, "\n\n"));
  }

  /** The printer's loop over the top-level blocks. */
  method RenderTop(children: seq<PMNode>) returns (blocks: seq<string>)
    ensures blocks == TopBlocks(children)
  {
    blocks := [];
    for i := 0 to |children|
      invariant TopBlocks(children) == blocks + TopBlocks(children[i..])
    {
      var md := RenderBlock(children[i], 0);
      NextBlock(children, i);
      if |md| > 0 {
        blocks := blocks + [md];
      }
    }
  }

  lemma NextBlock(children: seq<PMNode>, i: nat)
    requires i < |children|
    ensures var md := RenderBlock(children[i], 0);
            TopBlocks(children[i..]) == (if md != "" then [md] else []) + TopBlocks(children[i + 1..])
  {
    assert children[i..][1..] == children[i + 1..];
    assert RenderNodes(Blocks, children[i..], 0)[1..] == RenderNodes(Blocks, children[i + 1..], 0);
  }
}
