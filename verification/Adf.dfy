/** Converting a Jira document to Markdown (Adf.ts). Rendering threads the number of references
    recorded so far and returns the text together with the references it records. */
module Adf {
  import opened Wrappers
  import opened AdfText
  import opened AdfReferences

  datatype NodeKind =
    | Doc | Paragraph | Heading | BulletList | OrderedList | TaskList | Table | MediaSingle | MediaGroup | Media
    | Rule | CodeBlockNode | HardBreak | InlineCard | Mention | TextNode | OtherNode

  datatype Attr = TextAttr(text: string) | NumberAttr(number: int) | OtherAttr

  datatype MarkKind = Supported(mark: TextMark) | LinkMark | OtherMark

  datatype NodeMark = NodeMark(kind: MarkKind, attrs: map<string, Attr>)

  datatype Content = Absent | Present(nodes: seq<Node>)

  datatype Node = Node(
    kind: NodeKind, text: Option<string>, attrs: map<string, Attr>, marks: seq<NodeMark>, content: Content)

  /** A piece of Markdown and the references recorded while it was rendered. */
  datatype Rendered = Rendered(text: string, refs: seq<Reference>)

  // ---------- attributes ----------

  function StringOf(attrs: map<string, Attr>, key: string): (s: Option<string>)
    ensures s.Some? <==> key in attrs && attrs[key].TextAttr?
    ensures s.Some? ==> attrs[key] == TextAttr(s.value)
  {
    if key in attrs && attrs[key].TextAttr? then Some(attrs[key].text) else None
  }

  function NumberOf(attrs: map<string, Attr>, key: string, otherwise: int): (number: int)
    ensures key in attrs && attrs[key].NumberAttr? ==> attrs[key] == NumberAttr(number)
    ensures (key in attrs ==> !attrs[key].NumberAttr?) ==> number == otherwise
  {
    if key in attrs && attrs[key].NumberAttr? then attrs[key].number else otherwise
  }

  function OrElse(a: Option<string>, b: Option<string>): Option<string> {
    if a.Some? then a else b
  }

  function OrText(a: Option<string>, text: string): string {
    if a.Some? then a.value else text
  }

  /** The children; an absent content counts as none. */
  function Children(node: Node): (nodes: seq<Node>)
    ensures Below(nodes, node)
  {
    match node.content
    case Absent => []
    case Present(nodes) => nodes
  }

  function Upper(c: char): char {
    if 'a' <= c <= 'z' then (c as int - 32) as char else c
  }

  /** Whether a text begins with a lower-case word, in any case. */
  predicate BeginsWith(s: string, word: string) {
    |word| <= |s| && forall i | 0 <= i < |word| :: Lower(s[i]) == word[i]
  }

  function UntilDelimiter(s: string): string {
    if s == "" || s[0] in {'/', '?', '#'} then "" else [s[0]] + UntilDelimiter(s[1..])
  }

  /** jiraIssueId: what follows the first "/browse/" that is followed by something. */
  function JiraIssueId(url: string): Option<string> {
    if url == "" then None
    else if BeginsWith(url, "/browse/") && UntilDelimiter(url[8..]) != "" then Some(UntilDelimiter(url[8..]))
    else JiraIssueId(url[1..])
  }

  // ---------- reserved markers ----------

  predicate IsMarkerChar(c: char) {
    'A' <= c <= 'Z' || 'a' <= c <= 'z' || '0' <= c <= '9' || c == '_' || c == '-'
  }

  function Spaces(s: string): (n: nat)
    ensures n <= |s|
  {
    if s != "" && IsSpace(s[0]) then 1 + Spaces(s[1..]) else 0
  }

  function MarkerChars(s: string): (n: nat)
    ensures n <= |s|
  {
    if s != "" && IsMarkerChar(s[0]) then 1 + MarkerChars(s[1..]) else 0
  }

  predicate EndsMarker(s: string) {
    var n := Spaces(s);
    "-->" <= s[n..]
  }

  /** What stands between the opening and the closing of a reserved marker: comments:start,
      comments:end, or comment: and an id, whose own hyphens may run into the closing ones. */
  predicate IsReserved(s: string) {
    || ("comments:start" <= s && EndsMarker(s[14..]))
    || ("comments:end" <= s && EndsMarker(s[12..]))
    || ("comment:" <= s
        && var n := MarkerChars(s[8..]);
           || (n >= 1 && EndsMarker(s[8 + n..]))
           || (n >= 3 && s[8 + n - 2..8 + n] == "--" && s[8 + n..] != "" && s[8 + n] == '>'))
  }

  predicate IsMarkerAt(s: string) {
    "<!--" <= s && IsReserved(s[4 + Spaces(s[4..])..])
  }

  /** safeSourceText: the opening bracket of a reserved marker is written as an entity. */
  function SafeSourceText(s: string): string {
    if s == "" then ""
    else (if IsMarkerAt(s) then "&lt;" else [s[0]]) + SafeSourceText(s[1..])
  }

  function ReadableFallback(node: Node): string {
    SafeSourceText(
      OrText(OrElse(node.text, OrElse(StringOf(node.attrs, "text"), OrElse(StringOf(node.attrs, "alt"),
             OrElse(StringOf(node.attrs, "label"), OrElse(StringOf(node.attrs, "shortName"),
             OrElse(StringOf(node.attrs, "displayName"), OrElse(StringOf(node.attrs, "name"),
             OrElse(StringOf(node.attrs, "title"), StringOf(node.attrs, "url"))))))))), ""))
  }

  // ---------- joining ----------

  function Texts(rs: seq<Rendered>): seq<string> {
    if rs == [] then [] else [rs[0].text] + Texts(rs[1..])
  }

  function AllRefs(rs: seq<Rendered>): seq<Reference> {
    if rs == [] then [] else rs[0].refs + AllRefs(rs[1..])
  }

  function NonEmpty(texts: seq<string>): seq<string> {
    if texts == [] then [] else (if texts[0] == "" then [] else [texts[0]]) + NonEmpty(texts[1..])
  }

  function Join(texts: seq<string>, separator: string): string {
    if texts == [] then ""
    else if |texts| == 1 then texts[0]
    else texts[0] + separator + Join(texts[1..], separator)
  }

  function Joined(rs: seq<Rendered>, separator: string): Rendered {
    Rendered(Join(Texts(rs), separator), AllRefs(rs))
  }

  function JoinedNonEmpty(rs: seq<Rendered>, separator: string): Rendered {
    Rendered(Join(NonEmpty(Texts(rs)), separator), AllRefs(rs))
  }

  function TrimStart(s: string): string {
    if s != "" && IsSpace(s[0]) then TrimStart(s[1..]) else s
  }

  function TrimEnd(s: string): string {
    if s != "" && IsSpace(s[|s| - 1]) then TrimEnd(s[..|s| - 1]) else s
  }

  function Trimmed(r: Rendered): Rendered { r.(text := TrimEnd(TrimStart(r.text))) }

  function IndentChar(amount: nat): char -> string {
    (c: char) => if c == '\n' then "\n" + Repeat(' ', amount) else [c]
  }

  /** indent: a prefix before every line. */
  function Indented(r: Rendered, amount: nat): Rendered {
    r.(text := Repeat(' ', amount) + PerChar(r.text, IndentChar(amount)))
  }

  function CellChar(c: char): string {
    if c == '\n' then "<br>" else if c == '|' then "\\|" else [c]
  }

  function Around(before: string, r: Rendered, after: string): Rendered {
    Rendered(before + r.text + after, r.refs)
  }

  function Plainly(text: string): Rendered { Rendered(text, []) }

  // ---------- leaves ----------

  function AddReference(n: nat, kind: Kind, sourceId: string, originalUrl: Option<string>, fallbackText: string,
                        marks: seq<TextMark>): Rendered
  {
    var placeholder := Placeholder(n, marks);
    Rendered(placeholder, [Reference(kind, sourceId, placeholder, originalUrl, fallbackText)])
  }

  function SupportedMarks(marks: seq<NodeMark>): seq<TextMark> {
    if marks == [] then []
    else (if marks[0].kind.Supported? then [marks[0].kind.mark] else []) + SupportedMarks(marks[1..])
  }

  /** The first link of a text that leads to a Jira issue. */
  function JiraLink(marks: seq<NodeMark>): Option<string> {
    if marks == [] then None
    else
      var url := StringOf(marks[0].attrs, "href");
      if marks[0].kind.LinkMark? && url.Some? && JiraIssueId(url.value).Some? then url else JiraLink(marks[1..])
  }

  /** The address of the first link of a text. */
  function FirstLink(marks: seq<NodeMark>): Option<string> {
    if marks == [] then None
    else if marks[0].kind.LinkMark? then StringOf(marks[0].attrs, "href")
    else FirstLink(marks[1..])
  }

  function RenderMedia(node: Node, n: nat): Rendered {
    var sourceId := StringOf(node.attrs, "id");
    if sourceId.None? then Plainly(ReadableFallback(node))
    else
      AddReference(n, Attachment, sourceId.value, StringOf(node.attrs, "url"),
                   SafeSourceText(OrText(OrElse(StringOf(node.attrs, "alt"), StringOf(node.attrs, "filename")), sourceId.value)),
                   [])
  }

  function RenderInlineCard(node: Node, n: nat): Rendered {
    var url := StringOf(node.attrs, "url");
    if url.None? || JiraIssueId(url.value).None? then Plainly(OrText(url, ""))
    else AddReference(n, Issue, JiraIssueId(url.value).value, url, JiraIssueId(url.value).value, [])
  }

  function RenderMention(node: Node, n: nat): Rendered {
    var sourceId := OrElse(StringOf(node.attrs, "id"), StringOf(node.attrs, "accountId"));
    if sourceId.None? then Plainly(ReadableFallback(node))
    else
      AddReference(n, User, sourceId.value, None,
                   SafeSourceText(OrText(OrElse(StringOf(node.attrs, "text"), StringOf(node.attrs, "displayName")),
                                         "@" + sourceId.value)), [])
  }

  function RenderText(node: Node, n: nat): Rendered {
    var text := SafeSourceText(OrText(node.text, ""));
    var jira := JiraLink(node.marks);
    var marks := SupportedMarks(node.marks);
    if jira.Some? then AddReference(n, Issue, OrText(JiraIssueId(jira.value), ""), jira, text, marks)
    else
      var href := FirstLink(node.marks);
      if href.None? then Plainly(MarkedText(text, marks))
      else Plainly("[" + MarkedText(text, marks) + "](" + EscapeUrl(href.value) + ")")
  }

  function CodeText(children: seq<Node>): string {
    if children == [] then "" else SafeSourceText(OrText(children[0].text, "")) + CodeText(children[1..])
  }

  function RenderCodeBlock(node: Node): Rendered {
    Plainly(CodeBlock(OrText(StringOf(node.attrs, "language"), ""), CodeText(Children(node))))
  }

  // ---------- blocks and lines ----------

  ghost predicate Below(nodes: seq<Node>, parent: Node) { forall i | 0 <= i < |nodes| :: nodes[i] < parent }

  function RenderBlocks(node: Node, n: nat): Rendered
    decreases node, 2, 0
  {
    Trimmed(JoinedNonEmpty(RenderBlockEach(node, Children(node), n), "\n\n"))
  }

  function RenderBlockEach(ghost parent: Node, nodes: seq<Node>, n: nat): seq<Rendered>
    requires Below(nodes, parent)
    decreases parent, 1, |nodes|
  {
    if nodes == [] then []
    else
      var r := RenderBlock(nodes[0], n);
      [r] + RenderBlockEach(parent, nodes[1..], n + |r.refs|)
  }

  function Level(level: int): nat {
    if level < 1 then 1 else if level > 6 then 6 else level
  }

  function RenderBlock(node: Node, n: nat): Rendered
    decreases node, 5, 0
  {
    match node.kind
    case Paragraph => RenderInlineChildren(node, n)
    case Heading => Around(Repeat('#', Level(NumberOf(node.attrs, "level", 1))) + " ", RenderInlineChildren(node, n), "")
    case BulletList => RenderList(node, n, false, 0)
    case OrderedList => RenderList(node, n, true, 0)
    case TaskList => RenderTaskList(node, n, 0)
    case Table => RenderTable(node, n)
    case MediaSingle => JoinedNonEmpty(RenderMediaEach(node, Children(node), n), "\n")
    case MediaGroup => JoinedNonEmpty(RenderMediaEach(node, Children(node), n), "\n")
    case Media => RenderMedia(node, n)
    case Rule => Plainly("---")
    case CodeBlockNode => RenderCodeBlock(node)
    case _ => if node.content.Present? then RenderBlocks(node, n) else Plainly(EscapeText(ReadableFallback(node)))
  }

  function RenderInlineChildren(node: Node, n: nat): Rendered
    decreases node, 3, 0
  {
    Joined(RenderInlineEach(node, Children(node), n), "")
  }

  function RenderInlineEach(ghost parent: Node, nodes: seq<Node>, n: nat): seq<Rendered>
    requires Below(nodes, parent)
    decreases parent, 1, |nodes|
  {
    if nodes == [] then []
    else
      var r := RenderInline(nodes[0], n);
      [r] + RenderInlineEach(parent, nodes[1..], n + |r.refs|)
  }

  function RenderInline(node: Node, n: nat): Rendered
    decreases node, 4, 0
  {
    match node.kind
    case HardBreak => Plainly("  \n")
    case InlineCard => RenderInlineCard(node, n)
    case Media => RenderMedia(node, n)
    case Mention => RenderMention(node, n)
    case TextNode => RenderText(node, n)
    case _ => if node.content.Present? then RenderInlineChildren(node, n) else Plainly(EscapeText(ReadableFallback(node)))
  }

  function RenderMediaEach(ghost parent: Node, nodes: seq<Node>, n: nat): seq<Rendered>
    requires Below(nodes, parent)
    decreases parent, 1, |nodes|
  {
    if nodes == [] then []
    else
      var r := if nodes[0].kind.Media? then RenderMedia(nodes[0], n) else RenderBlock(nodes[0], n);
      [r] + RenderMediaEach(parent, nodes[1..], n + |r.refs|)
  }

  // ---------- lists ----------

  function IntText(i: int): string { if i < 0 then "-" + Digits(-i) else Digits(i) }

  function RenderList(node: Node, n: nat, ordered: bool, indentation: nat): Rendered
    decreases node, 4, 0
  {
    Joined(RenderItems(node, Children(node), n, ordered, NumberOf(node.attrs, "order", 1), indentation), "\n")
  }

  function ItemPrefix(ordered: bool, number: int): string {
    if ordered then IntText(number) + "." else "-"
  }

  function RenderItems(ghost parent: Node, items: seq<Node>, n: nat, ordered: bool, number: int, indentation: nat)
    : seq<Rendered>
    requires Below(items, parent)
    decreases parent, 1, |items|
  {
    if items == [] then []
    else
      var r := RenderItem(items[0], n, ItemPrefix(ordered, number), indentation);
      [r] + RenderItems(parent, items[1..], n + |r.refs|, ordered, number + 1, indentation)
  }

  function RenderLabel(node: Node, n: nat): Rendered
    decreases node, 5, 0
  {
    if node.kind.Paragraph? then RenderInlineChildren(node, n) else RenderInline(node, n)
  }

  function LinePrefix(prefix: string, indentation: nat): string { Repeat(' ', indentation) + prefix + " " }

  function RenderItem(item: Node, n: nat, prefix: string, indentation: nat): Rendered
    decreases item, 4, 0
  {
    JoinedNonEmpty(ItemLines(item, Children(item), n, LinePrefix(prefix, indentation), indentation + 2), "\n")
  }

  /** The first child stands behind the bullet or number, the others below it. */
  function ItemLines(ghost parent: Node, children: seq<Node>, n: nat, prefix: string, indentation: nat): seq<Rendered>
    requires Below(children, parent)
    decreases parent, 2, |children|
  {
    if children == [] then [Plainly(prefix)]
    else
      var head := Around(prefix, RenderLabel(children[0], n), "");
      [head] + RenderRest(parent, children[1..], n + |head.refs|, indentation)
  }

  function RenderNested(node: Node, n: nat, indentation: nat): Rendered
    decreases node, 6, 0
  {
    match node.kind
    case BulletList => RenderList(node, n, false, indentation)
    case OrderedList => RenderList(node, n, true, indentation)
    case TaskList => RenderTaskList(node, n, indentation)
    case _ => Indented(RenderBlock(node, n), indentation)
  }

  function RenderRest(ghost parent: Node, nodes: seq<Node>, n: nat, indentation: nat): seq<Rendered>
    requires Below(nodes, parent)
    decreases parent, 1, |nodes|
  {
    if nodes == [] then []
    else
      var r := RenderNested(nodes[0], n, indentation);
      [r] + RenderRest(parent, nodes[1..], n + |r.refs|, indentation)
  }

  function RenderTaskList(node: Node, n: nat, indentation: nat): Rendered
    decreases node, 4, 0
  {
    Joined(RenderTasks(node, Children(node), n, indentation), "\n")
  }

  predicate IsDone(item: Node) {
    var state := StringOf(item.attrs, "state");
    state.Some? && PerChar(state.value, (c: char) => [Upper(c)]) == "DONE"
  }

  function TaskPrefix(item: Node, indentation: nat): string {
    Repeat(' ', indentation) + (if IsDone(item) then "- [x] " else "- [ ] ")
  }

  function RenderTask(item: Node, n: nat, indentation: nat): Rendered
    decreases item, 4, 0
  {
    Around(TaskPrefix(item, indentation), Joined(RenderLabels(item, Children(item), n), ""), "")
  }

  function RenderTasks(ghost parent: Node, items: seq<Node>, n: nat, indentation: nat): seq<Rendered>
    requires Below(items, parent)
    decreases parent, 1, |items|
  {
    if items == [] then []
    else
      var r := RenderTask(items[0], n, indentation);
      [r] + RenderTasks(parent, items[1..], n + |r.refs|, indentation)
  }

  function RenderLabels(ghost parent: Node, nodes: seq<Node>, n: nat): seq<Rendered>
    requires Below(nodes, parent)
    decreases parent, 1, |nodes|
  {
    if nodes == [] then []
    else
      var r := RenderLabel(nodes[0], n);
      [r] + RenderLabels(parent, nodes[1..], n + |r.refs|)
  }

  // ---------- tables ----------

  function RenderCell(cell: Node, n: nat): Rendered
    decreases cell, 3, 0
  {
    var r := RenderBlocks(cell, n);
    r.(text := PerChar(r.text, CellChar))
  }

  function RenderCells(ghost parent: Node, cells: seq<Node>, n: nat): seq<Rendered>
    requires Below(cells, parent)
    decreases parent, 1, |cells|
  {
    if cells == [] then []
    else
      var r := RenderCell(cells[0], n);
      [r] + RenderCells(parent, cells[1..], n + |r.refs|)
  }

  function RenderRows(ghost parent: Node, rows: seq<Node>, n: nat): seq<seq<Rendered>>
    requires Below(rows, parent)
    decreases parent, 1, |rows|
  {
    if rows == [] then []
    else
      var cells := RenderCells(rows[0], Children(rows[0]), n);
      [cells] + RenderRows(parent, rows[1..], n + |AllRefs(cells)|)
  }

  /** The length of the longest row. */
  function Width<T>(rows: seq<seq<T>>): (width: nat)
    ensures forall i | 0 <= i < |rows| :: |rows[i]| <= width
    ensures width > 0 ==> exists i | 0 <= i < |rows| :: |rows[i]| == width
  {
    if rows == [] then 0
    else if |rows[0]| > Width(rows[1..]) then |rows[0]| else Width(rows[1..])
  }

  function Blanks(k: nat): seq<Rendered> {
    if k == 0 then [] else [Plainly("")] + Blanks(k - 1)
  }

  function RowLine(cells: seq<Rendered>, width: nat): Rendered {
    Around("| ", Joined(cells + Blanks(if width > |cells| then width - |cells| else 0), " | "), " |")
  }

  function RowLines(rows: seq<seq<Rendered>>, width: nat): seq<Rendered> {
    if rows == [] then [] else [RowLine(rows[0], width)] + RowLines(rows[1..], width)
  }

  function Rules(k: nat): seq<string> {
    if k == 0 then [] else ["---"] + Rules(k - 1)
  }

  function RuleLine(width: nat): Rendered { Plainly("| " + Join(Rules(width), " | ") + " |") }

  function RenderTable(node: Node, n: nat): Rendered
    decreases node, 4, 0
  {
    var rows := RenderRows(node, Children(node), n);
    if rows == [] then Plainly("")
    else
      var width := Width(rows);
      Joined([RowLine(rows[0], width)] + ([RuleLine(width)] + RowLines(rows[1..], width)), "\n")
  }

  /** convertAdfToMarkdown of a decoded document; anything else gives the empty text. */
  function Convert(input: Option<Node>): Rendered {
    if input.None? || !input.value.kind.Doc? then Plainly("") else RenderBlocks(input.value, 0)
  }
}
