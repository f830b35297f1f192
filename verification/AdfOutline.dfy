/** What a Jira document says, read off its nodes: words, the symbols of its blocks and its
    references, in document order. The converted Markdown (Adf.ts) shows exactly that. */
module AdfOutline {
  import opened Wrappers
  import opened AdfText
  import opened AdfReferences
  import opened Adf
  import opened AdfShows
  import AdfConversion

  datatype Piece =
    | Words(text: string)
    | Refers(kind: Kind, sourceId: string, originalUrl: Option<string>, fallbackText: string, marks: seq<TextMark>)

  // ---------- leaves ----------

  function FirstPresent(options: seq<Option<string>>, otherwise: string): string {
    if options == [] then otherwise
    else if options[0].Some? then options[0].value
    else FirstPresent(options[1..], otherwise)
  }

  /** The texts that can stand for a node, the best one first. */
  function Candidates(node: Node): seq<Option<string>> {
    var a := node.attrs;
    [node.text, StringOf(a, "text"), StringOf(a, "alt"), StringOf(a, "label"), StringOf(a, "shortName"),
     StringOf(a, "displayName"), StringOf(a, "name"), StringOf(a, "title"), StringOf(a, "url")]
  }

  /** What stands for a node that is not converted. */
  function StandIn(node: Node): string { SafeSourceText(FirstPresent(Candidates(node), "")) }

  /** An attachment, by the text that describes it. */
  function MediaPieces(node: Node): seq<Piece> {
    var a := node.attrs;
    var id := StringOf(a, "id");
    if id.None? then [Words(StandIn(node))]
    else
      [Refers(Attachment, id.value, StringOf(a, "url"),
              SafeSourceText(FirstPresent([StringOf(a, "alt"), StringOf(a, "filename")], id.value)), [])]
  }

  /** A person, by the name the document gives. */
  function MentionPieces(node: Node): seq<Piece> {
    var a := node.attrs;
    var id := FirstPresent([StringOf(a, "id"), StringOf(a, "accountId")], "");
    if StringOf(a, "id").None? && StringOf(a, "accountId").None? then [Words(StandIn(node))]
    else
      [Refers(User, id, None,
              SafeSourceText(FirstPresent([StringOf(a, "text"), StringOf(a, "displayName")], "@" + id)), [])]
  }

  /** A card that leads to an issue refers to it; any other one is its address. */
  function CardPieces(node: Node): seq<Piece> {
    var url := StringOf(node.attrs, "url");
    if url.None? then []
    else
      var issue := JiraIssueId(url.value);
      if issue.None? then [Words(url.value)] else [Refers(Issue, issue.value, url, issue.value, [])]
  }

  /** Text in its marks, as a link if it has an address, or a reference if that is an issue's. */
  function TextPieces(node: Node): seq<Piece> {
    var text := SafeSourceText(FirstPresent([node.text], ""));
    var marks := SupportedMarks(node.marks);
    var jira, href := JiraLink(node.marks), FirstLink(node.marks);
    if jira.Some? then [Refers(Issue, FirstPresent([JiraIssueId(jira.value)], ""), jira, text, marks)]
    else if href.Some? then [Words("[" + InMarks(text, marks) + "](" + href.value + ")")]
    else [Words(InMarks(text, marks))]
  }

  function CodeWords(children: seq<Node>): string {
    if children == [] then "" else SafeSourceText(FirstPresent([children[0].text], "")) + CodeWords(children[1..])
  }

  // ---------- the outline ----------

  function Outline(node: Node): seq<Piece>
    decreases node, 2, 0
  {
    Blocks(node, Children(node))
  }

  function Blocks(ghost parent: Node, nodes: seq<Node>): seq<Piece>
    requires Below(nodes, parent)
    decreases parent, 1, |nodes|
  {
    if nodes == [] then [] else Block(nodes[0]) + Blocks(parent, nodes[1..])
  }

  function Hashes(level: int): string {
    if 1 <= level <= 6 then Repeat('#', level) else if level > 6 then "######" else "#"
  }

  function Block(node: Node): seq<Piece>
    decreases node, 5, 0
  {
    match node.kind
    case Paragraph => Line(node)
    case Heading => [Words(Hashes(NumberOf(node.attrs, "level", 1)))] + Line(node)
    case BulletList => Items(node, Children(node), None)
    case OrderedList => Items(node, Children(node), Some(NumberOf(node.attrs, "order", 1)))
    case TaskList => Tasks(node, Children(node))
    case Table => TablePieces(node)
    case MediaSingle => Blocks(node, Children(node))
    case MediaGroup => Blocks(node, Children(node))
    case Media => MediaPieces(node)
    case Rule => [Words("---")]
    case CodeBlockNode =>
      var text := CodeWords(Children(node));
      [Words(Fence(text) + FirstPresent([StringOf(node.attrs, "language")], "") + text + Fence(text))]
    case _ => if node.content.Present? then Outline(node) else [Words(StandIn(node))]
  }

  function Line(node: Node): seq<Piece>
    decreases node, 3, 0
  {
    Inlines(node, Children(node))
  }

  function Inlines(ghost parent: Node, nodes: seq<Node>): seq<Piece>
    requires Below(nodes, parent)
    decreases parent, 1, |nodes|
  {
    if nodes == [] then [] else Inline(nodes[0]) + Inlines(parent, nodes[1..])
  }

  function Inline(node: Node): seq<Piece>
    decreases node, 4, 0
  {
    match node.kind
    case HardBreak => [Words("\n")]
    case InlineCard => CardPieces(node)
    case Media => MediaPieces(node)
    case Mention => MentionPieces(node)
    case TextNode => TextPieces(node)
    case _ => if node.content.Present? then Line(node) else [Words(StandIn(node))]
  }

  /** The line of a list item or task. */
  function Label(node: Node): seq<Piece>
    decreases node, 5, 0
  {
    if node.kind.Paragraph? then Line(node) else Inline(node)
  }

  function Labels(ghost parent: Node, nodes: seq<Node>): seq<Piece>
    requires Below(nodes, parent)
    decreases parent, 1, |nodes|
  {
    if nodes == [] then [] else Label(nodes[0]) + Labels(parent, nodes[1..])
  }

  /** An item's bullet or number, its line, and what stands below it. */
  function Items(ghost parent: Node, items: seq<Node>, number: Option<int>): seq<Piece>
    requires Below(items, parent)
    decreases parent, 1, |items|
  {
    if items == [] then []
    else
      [Words(if number.Some? then IntText(number.value) + "." else "-")] + Item(items[0])
      + Items(parent, items[1..], if number.Some? then Some(number.value + 1) else None)
  }

  function Item(item: Node): seq<Piece>
    decreases item, 4, 0
  {
    var children := Children(item);
    if children == [] then [] else Label(children[0]) + Blocks(item, children[1..])
  }

  /** Done in any letter case. */
  predicate Done(item: Node) {
    var state := StringOf(item.attrs, "state");
    state.Some? && |state.value| == 4 && forall i | 0 <= i < 4 :: Lower(state.value[i]) == "done"[i]
  }

  function Tasks(ghost parent: Node, items: seq<Node>): seq<Piece>
    requires Below(items, parent)
    decreases parent, 1, |items|
  {
    if items == [] then []
    else
      [Words(if Done(items[0]) then "- [x]" else "- [ ]")] + Task(items[0]) + Tasks(parent, items[1..])
  }

  function Task(item: Node): seq<Piece>
    decreases item, 4, 0
  {
    Labels(item, Children(item))
  }

  function Cells(ghost parent: Node, cells: seq<Node>): seq<seq<Piece>>
    requires Below(cells, parent)
    decreases parent, 3, |cells|
  {
    if cells == [] then [] else [Outline(cells[0])] + Cells(parent, cells[1..])
  }

  function Rows(ghost parent: Node, rows: seq<Node>): seq<seq<seq<Piece>>>
    requires Below(rows, parent)
    decreases parent, 1, |rows|
  {
    if rows == [] then [] else [Cells(rows[0], Children(rows[0]))] + Rows(parent, rows[1..])
  }

  /** The parts with the pieces of a separator between any two of them. */
  function Between(parts: seq<seq<Piece>>, separator: seq<Piece>): seq<Piece> {
    if parts == [] then []
    else if |parts| == 1 then parts[0]
    else parts[0] + separator + Between(parts[1..], separator)
  }

  /** As many cells with the same words, or empty ones. */
  function Same(cell: seq<Piece>, k: nat): seq<seq<Piece>> {
    if k == 0 then [] else [cell] + Same(cell, k - 1)
  }

  /** The cells of a row, and empty ones up to the width of the table. */
  function Filled(cells: seq<seq<Piece>>, width: nat): seq<seq<Piece>> {
    cells + Same([], if width > |cells| then width - |cells| else 0)
  }

  /** A row with its bars. */
  function Row(cells: seq<seq<Piece>>, width: nat): seq<Piece> {
    [Words("|")] + Between(Filled(cells, width), [Words("|")]) + [Words("|")]
  }

  function AllRows(rows: seq<seq<seq<Piece>>>, width: nat): seq<Piece> {
    if rows == [] then [] else Row(rows[0], width) + AllRows(rows[1..], width)
  }

  /** The first row, the rule below it, and the other rows. */
  function TablePieces(node: Node): seq<Piece>
    decreases node, 4, 0
  {
    var rows := Rows(node, Children(node));
    if rows == [] then []
    else
      var width := Width(rows);
      Row(rows[0], width) + Row(Same([Words("---")], width), width) + AllRows(rows[1..], width)
  }

  // ---------- what the pieces come to ----------

  /** The pieces in a row, with a placeholder for each reference, numbered from n. */
  function Flat(pieces: seq<Piece>, n: nat): string {
    if pieces == [] then ""
    else match pieces[0]
         case Words(text) => text + Flat(pieces[1..], n)
         case Refers(_, _, _, _, marks) => Placeholder(n, marks) + Flat(pieces[1..], n + 1)
  }

  function Listed(pieces: seq<Piece>, n: nat): seq<Reference> {
    if pieces == [] then []
    else match pieces[0]
         case Words(_) => Listed(pieces[1..], n)
         case Refers(kind, sourceId, url, fallback, marks) =>
           [Reference(kind, sourceId, Placeholder(n, marks), url, fallback)] + Listed(pieces[1..], n + 1)
  }

  /** A rendered piece shows these pieces and records their references, in their order. */
  ghost predicate Meets(r: Rendered, pieces: seq<Piece>, n: nat, loosely: bool) {
    Shows(r.text, Flat(pieces, n), loosely) && r.refs == Listed(pieces, n)
  }

  lemma {:induction false} FlatConcat(ps: seq<Piece>, qs: seq<Piece>, n: nat)
    ensures Flat(ps + qs, n) == Flat(ps, n) + Flat(qs, n + |Listed(ps, n)|)
    ensures Listed(ps + qs, n) == Listed(ps, n) + Listed(qs, n + |Listed(ps, n)|)
  {
    hide Placeholder;
    if ps == [] {
      assert ps + qs == qs;
    } else {
      assert (ps + qs)[0] == ps[0] && (ps + qs)[1..] == ps[1..] + qs;
      FlatConcat(ps[1..], qs, if ps[0].Words? then n else n + 1);
    }
  }

  lemma MeetsConcat(r: Rendered, s: Rendered, ps: seq<Piece>, qs: seq<Piece>, n: nat, loosely: bool)
    requires Meets(r, ps, n, loosely) && Meets(s, qs, n + |r.refs|, loosely)
    ensures Meets(Rendered(r.text + s.text, r.refs + s.refs), ps + qs, n, loosely)
  {
    hide Shows;
    FlatConcat(ps, qs, n);
    ShowsConcat(r.text, s.text, Flat(ps, n), Flat(qs, n + |r.refs|), loosely);
  }

  lemma MeetsLoosely(r: Rendered, ps: seq<Piece>, n: nat)
    requires Meets(r, ps, n, false)
    ensures Meets(r, ps, n, true)
  {
    ShowsLoosely(r.text, Flat(ps, n));
  }

  lemma WordsMeet(text: string, words: string, n: nat, loosely: bool)
    requires Shows(text, words, loosely)
    ensures Meets(Plainly(text), [Words(words)], n, loosely)
  {
    hide Shows;
    assert [Words(words)][1..] == [];
    assert Flat([Words(words)], n) == words + Flat([], n) && words + "" == words;
    assert Listed([Words(words)], n) == [];
  }

  lemma TextMeets(text: string, n: nat, loosely: bool)
    ensures Meets(Plainly(text), [Words(text)], n, loosely)
  {
    ShowsItself(text, loosely);
    WordsMeet(text, text, n, loosely);
  }

  lemma NothingMeets(n: nat, loosely: bool)
    ensures Meets(Plainly(""), [], n, loosely)
  {
  }

  lemma SpacingMeets(text: string, n: nat, loosely: bool)
    requires forall i | 0 <= i < |text| :: Spacing(text[i])
    ensures Meets(Plainly(text), [], n, loosely)
  {
    SpacingShowsNothing(text, loosely);
  }

  lemma ReferenceMeets(n: nat, kind: Kind, sourceId: string, url: Option<string>, fallback: string, marks: seq<TextMark>,
                       loosely: bool)
    ensures Meets(AddReference(n, kind, sourceId, url, fallback, marks), [Refers(kind, sourceId, url, fallback, marks)], n, loosely)
  {
    hide Placeholder;
    var pieces := [Refers(kind, sourceId, url, fallback, marks)];
    assert pieces[1..] == [];
    assert Flat(pieces, n) == Placeholder(n, marks) + Flat([], n + 1) && Placeholder(n, marks) + "" == Placeholder(n, marks);
    assert Listed(pieces, n) == [Reference(kind, sourceId, Placeholder(n, marks), url, fallback)] + Listed([], n + 1);
    ShowsItself(Placeholder(n, marks), loosely);
  }

  lemma AroundMeets(before: string, r: Rendered, after: string, qs: seq<Piece>, ps: seq<Piece>, ss: seq<Piece>, n: nat, loosely: bool)
    requires Meets(r, ps, n, loosely)
    requires Meets(Plainly(before), qs, n, loosely) && Meets(Plainly(after), ss, n + |r.refs|, loosely)
    ensures Meets(Around(before, r, after), qs + ps + ss, n, loosely)
  {
    hide Meets;
    MeetsConcat(Plainly(before), r, qs, ps, n, loosely);
    assert [] + r.refs == r.refs && r.refs + [] == r.refs;
    MeetsConcat(Rendered(before + r.text, r.refs), Plainly(after), qs + ps, ss, n, loosely);
  }

  lemma TrimmedMeets(r: Rendered, ps: seq<Piece>, n: nat)
    requires Meets(r, ps, n, true)
    ensures Meets(Trimmed(r), ps, n, true)
  {
    AllTrimStartShows(r.text, Flat(ps, n));
    AllTrimEndShows(TrimStart(r.text), Flat(ps, n));
  }

  lemma {:induction false} AllTrimStartShows(s: string, t: string)
    requires Shows(s, t, true)
    ensures Shows(TrimStart(s), t, true)
  {
    if s != "" && IsSpace(s[0]) {
      TrimStartShows(s, t);
      AllTrimStartShows(s[1..], t);
    }
  }

  lemma {:induction false} AllTrimEndShows(s: string, t: string)
    requires Shows(s, t, true)
    ensures Shows(TrimEnd(s), t, true)
  {
    if s != "" && IsSpace(s[|s| - 1]) {
      TrimEndShows(s, t);
      AllTrimEndShows(s[..|s| - 1], t);
    }
  }

  lemma IndentedMeets(r: Rendered, amount: nat, ps: seq<Piece>, n: nat)
    requires Meets(r, ps, n, true)
    ensures Meets(Indented(r, amount), ps, n, true)
  {
    var f := IndentChar(amount);
    var s := r.(text := PerChar(r.text, f));
    assert KeepsShown(f) by {
      assert f('\n')[0] == '\n';
    }
    PerCharShows(r.text, Flat(ps, n), f);
    SpacingMeets(Repeat(' ', amount), n, true);
    MeetsConcat(Plainly(Repeat(' ', amount)), s, [], ps, n, true);
    assert [] + ps == ps && [] + r.refs == r.refs;
  }

  // ---------- joining ----------

  lemma JoinedMeets(r: Rendered, rest: seq<Rendered>, separator: string, ps: seq<Piece>, bar: seq<Piece>, qs: seq<Piece>,
                    n: nat, loosely: bool)
    requires Meets(r, ps, n, loosely) && Meets(Joined(rest, separator), qs, n + |r.refs|, loosely)
    requires rest != [] ==> Meets(Plainly(separator), bar, n + |r.refs|, loosely)
    ensures Meets(Joined([r] + rest, separator), ps + (if rest == [] then [] else bar) + qs, n, loosely)
  {
    AdfConversion.JoinedFirst([r] + rest, separator);
    assert ([r] + rest)[1..] == rest;
    var tail := Joined(rest, separator);
    hide Meets;
    if rest == [] {
      MeetsConcat(r, tail, ps, qs, n, loosely);
      assert r.text + "" == r.text && r.refs + [] == r.refs && ps + [] == ps;
    } else {
      MeetsConcat(r, Plainly(separator), ps, bar, n, loosely);
      assert r.refs + [] == r.refs;
      MeetsConcat(Rendered(r.text + separator, r.refs), tail, ps + bar, qs, n, loosely);
    }
  }

  /** With white space between them. */
  lemma JoinedSpacedMeets(r: Rendered, rest: seq<Rendered>, separator: string, ps: seq<Piece>, qs: seq<Piece>, n: nat, loosely: bool)
    requires Meets(r, ps, n, loosely) && Meets(Joined(rest, separator), qs, n + |r.refs|, loosely)
    requires forall i | 0 <= i < |separator| :: Spacing(separator[i])
    ensures Meets(Joined([r] + rest, separator), ps + qs, n, loosely)
  {
    hide Meets;
    SpacingMeets(separator, n + |r.refs|, loosely);
    JoinedMeets(r, rest, separator, ps, [], qs, n, loosely);
    assert ps + [] == ps;
  }

  lemma JoinedNonEmptyMeets(r: Rendered, rest: seq<Rendered>, separator: string, ps: seq<Piece>, qs: seq<Piece>, n: nat)
    requires Meets(r, ps, n, true) && Meets(JoinedNonEmpty(rest, separator), qs, n + |r.refs|, true)
    requires forall i | 0 <= i < |separator| :: Spacing(separator[i])
    ensures Meets(JoinedNonEmpty([r] + rest, separator), ps + qs, n, true)
  {
    AdfConversion.JoinedFirstNonEmpty([r] + rest, separator);
    assert ([r] + rest)[1..] == rest;
    var tail := JoinedNonEmpty(rest, separator);
    hide Meets, JoinedNonEmpty, Texts, NonEmpty, Spacing;
    if r.text == "" || tail.text == "" {
      MeetsConcat(r, tail, ps, qs, n, true);
      assert r.text + "" == r.text && "" + tail.text == tail.text;
    }
    SpacedMeets(r, separator, tail, ps, qs, n);
  }

  lemma SpacedMeets(r: Rendered, separator: string, tail: Rendered, ps: seq<Piece>, qs: seq<Piece>, n: nat)
    requires Meets(r, ps, n, true) && Meets(tail, qs, n + |r.refs|, true)
    requires forall i | 0 <= i < |separator| :: Spacing(separator[i])
    ensures Meets(Rendered(r.text + separator + tail.text, r.refs + tail.refs), ps + qs, n, true)
  {
    hide Meets, Spacing;
    SpacingMeets(separator, n + |r.refs|, true);
    MeetsConcat(r, Plainly(separator), ps, [], n, true);
    assert r.refs + [] == r.refs && ps + [] == ps;
    MeetsConcat(Rendered(r.text + separator, r.refs), tail, ps, qs, n, true);
  }

  // ---------- leaves ----------

  lemma StandInIs(node: Node)
    ensures ReadableFallback(node) == StandIn(node)
  {
    var a := node.attrs;
    NinePresent(node.text, StringOf(a, "text"), StringOf(a, "alt"), StringOf(a, "label"), StringOf(a, "shortName"),
                StringOf(a, "displayName"), StringOf(a, "name"), StringOf(a, "title"), StringOf(a, "url"));
    hide StringOf, SafeSourceText, FirstPresent, OrText, OrElse;
  }

  lemma FivePresent(d: Option<string>, e: Option<string>, f: Option<string>, g: Option<string>, h: Option<string>)
    ensures FirstPresent([d, e, f, g, h], "") == OrText(OrElse(d, OrElse(e, OrElse(f, OrElse(g, h)))), "")
  {
    hide FirstPresent, OrText, OrElse;
    PresentOrElse(h, [], h);
    PresentOrElse(g, [h], h);
    PresentOrElse(f, [g, h], OrElse(g, h));
    PresentOrElse(e, [f, g, h], OrElse(f, OrElse(g, h)));
    PresentOrElse(d, [e, f, g, h], OrElse(e, OrElse(f, OrElse(g, h))));
    assert [d] + [e, f, g, h] == [d, e, f, g, h] && [e] + [f, g, h] == [e, f, g, h];
    assert [f] + [g, h] == [f, g, h] && [g] + [h] == [g, h] && [h] + [] == [h];
  }

  lemma NinePresent(o: Option<string>, a: Option<string>, b: Option<string>, c: Option<string>, d: Option<string>,
                    e: Option<string>, f: Option<string>, g: Option<string>, h: Option<string>)
    ensures FirstPresent([o, a, b, c, d, e, f, g, h], "")
         == OrText(OrElse(o, OrElse(a, OrElse(b, OrElse(c, OrElse(d, OrElse(e, OrElse(f, OrElse(g, h)))))))), "")
  {
    hide FirstPresent, OrText, OrElse;
    var five := [d, e, f, g, h];
    FivePresent(d, e, f, g, h);
    FourMore(o, a, b, c, five, OrElse(d, OrElse(e, OrElse(f, OrElse(g, h)))));
    assert [o, a, b, c] + five == [o, a, b, c, d, e, f, g, h];
  }

  lemma FourMore(o: Option<string>, a: Option<string>, b: Option<string>, c: Option<string>, rest: seq<Option<string>>,
                 other: Option<string>)
    requires FirstPresent(rest, "") == OrText(other, "")
    ensures FirstPresent([o, a, b, c] + rest, "") == OrText(OrElse(o, OrElse(a, OrElse(b, OrElse(c, other)))), "")
  {
    hide FirstPresent, OrText, OrElse;
    var x := [c] + rest;
    var y := [b] + x;
    var z := [a] + y;
    PresentOrElse(c, rest, other);
    PresentOrElse(b, x, OrElse(c, other));
    PresentOrElse(a, y, OrElse(b, OrElse(c, other)));
    PresentOrElse(o, z, OrElse(a, OrElse(b, OrElse(c, other))));
    assert [o] + z == [o, a, b, c] + rest;
  }

  /** One more candidate before the others. */
  lemma PresentOrElse(first: Option<string>, rest: seq<Option<string>>, other: Option<string>)
    ensures FirstPresent(rest, "") == OrText(other, "") ==> FirstPresent([first] + rest, "") == OrText(OrElse(first, other), "")
    ensures rest == [] ==> FirstPresent([first] + rest, "") == OrText(first, "")
  {
    FirstPresentMore(first, rest, "");
  }

  lemma FirstPresentMore(first: Option<string>, rest: seq<Option<string>>, otherwise: string)
    ensures FirstPresent([first] + rest, otherwise) == OrText(first, FirstPresent(rest, otherwise))
  {
    assert ([first] + rest)[1..] == rest;
  }

  lemma FirstOfTwo(a: Option<string>, b: Option<string>, otherwise: string)
    ensures FirstPresent([a, b], otherwise) == OrText(OrElse(a, b), otherwise)
    ensures FirstPresent([a], otherwise) == OrText(a, otherwise)
  {
    assert [a, b] == [a] + [b] && [b] == [b] + [] && [a] == [a] + [];
    FirstPresentMore(a, [b], otherwise);
    FirstPresentMore(b, [], otherwise);
    FirstPresentMore(a, [], otherwise);
  }

  lemma MediaMeets(node: Node, n: nat, loosely: bool)
    ensures Meets(RenderMedia(node, n), MediaPieces(node), n, loosely)
  {
    var a := node.attrs;
    hide Meets, StringOf, SafeSourceText, AddReference;
    var id := StringOf(a, "id");
    if id.None? {
      StandInIs(node);
      TextMeets(StandIn(node), n, loosely);
    } else {
      FirstOfTwo(StringOf(a, "alt"), StringOf(a, "filename"), id.value);
      ReferenceMeets(n, Attachment, id.value, StringOf(a, "url"),
                     SafeSourceText(FirstPresent([StringOf(a, "alt"), StringOf(a, "filename")], id.value)), [], loosely);
    }
  }

  lemma MentionMeets(node: Node, n: nat)
    ensures Meets(RenderMention(node, n), MentionPieces(node), n, false)
  {
    var a := node.attrs;
    hide Meets, StringOf, SafeSourceText, AddReference;
    FirstOfTwo(StringOf(a, "id"), StringOf(a, "accountId"), "");
    var id := FirstPresent([StringOf(a, "id"), StringOf(a, "accountId")], "");
    FirstOfTwo(StringOf(a, "text"), StringOf(a, "displayName"), "@" + id);
    if StringOf(a, "id").None? && StringOf(a, "accountId").None? {
      StandInIs(node);
      TextMeets(StandIn(node), n, false);
    } else {
      ReferenceMeets(n, User, id, None,
                     SafeSourceText(FirstPresent([StringOf(a, "text"), StringOf(a, "displayName")], "@" + id)), [], false);
    }
  }

  lemma CardMeets(node: Node, n: nat)
    ensures Meets(RenderInlineCard(node, n), CardPieces(node), n, false)
  {
    var url := StringOf(node.attrs, "url");
    hide Meets, StringOf, AddReference, JiraIssueId;
    if url.None? {
      NothingMeets(n, false);
    } else if JiraIssueId(url.value).None? {
      TextMeets(url.value, n, false);
    } else {
      ReferenceMeets(n, Issue, JiraIssueId(url.value).value, url, JiraIssueId(url.value).value, [], false);
    }
  }

  lemma TextNodeMeets(node: Node, n: nat)
    ensures Meets(RenderText(node, n), TextPieces(node), n, false)
  {
    hide Meets, SafeSourceText, AddReference, JiraIssueId, JiraLink, FirstLink, SupportedMarks, MarkedText, InMarks, EscapeUrl;
    FirstOfTwo(node.text, None, "");
    var text := SafeSourceText(OrText(node.text, ""));
    var jira, href, marks := JiraLink(node.marks), FirstLink(node.marks), SupportedMarks(node.marks);
    if jira.Some? {
      FirstOfTwo(JiraIssueId(jira.value), None, "");
      ReferenceMeets(n, Issue, OrText(JiraIssueId(jira.value), ""), jira, text, marks, false);
    } else if href.Some? {
      LinkShows(text, href.value, marks);
      WordsMeet("[" + MarkedText(text, marks) + "](" + EscapeUrl(href.value) + ")",
                "[" + InMarks(text, marks) + "](" + href.value + ")", n, false);
    } else {
      MarkedTextShows(text, marks);
      WordsMeet(MarkedText(text, marks), InMarks(text, marks), n, false);
    }
  }

  lemma {:induction false} CodeWordsAre(children: seq<Node>)
    ensures CodeText(children) == CodeWords(children)
  {
    if children != [] {
      FirstOfTwo(children[0].text, None, "");
      CodeWordsAre(children[1..]);
    }
  }

  lemma CodeBlockMeets(node: Node, n: nat)
    ensures Meets(RenderCodeBlock(node), Block(node.(kind := CodeBlockNode)), n, true)
  {
    hide Meets, CodeBlock, Fence, StringOf, CodeText, CodeWords;
    var text := CodeWords(Children(node));
    CodeWordsAre(Children(node));
    FirstOfTwo(StringOf(node.attrs, "language"), None, "");
    var language := OrText(StringOf(node.attrs, "language"), "");
    CodeBlockShows(language, text);
    WordsMeet(CodeBlock(language, text), Fence(text) + language + text + Fence(text), n, true);
  }

  // ---------- lines ----------

  lemma {:induction false} LineMeets(node: Node, n: nat)
    ensures Meets(RenderInlineChildren(node, n), Line(node), n, false)
    decreases node, 3, 0
  {
    InlinesMeet(node, Children(node), n);
  }

  lemma {:induction false} InlinesMeet(parent: Node, nodes: seq<Node>, n: nat)
    requires Below(nodes, parent)
    ensures Meets(Joined(RenderInlineEach(parent, nodes, n), ""), Inlines(parent, nodes), n, false)
    decreases parent, 1, |nodes|
  {
    hide Meets;
    if nodes == [] {
      NothingMeets(n, false);
    } else {
      var r := RenderInline(nodes[0], n);
      InlineMeets(nodes[0], n);
      InlinesMeet(parent, nodes[1..], n + |r.refs|);
      hide Joined;
      JoinedSpacedMeets(r, RenderInlineEach(parent, nodes[1..], n + |r.refs|), "", Inline(nodes[0]), Inlines(parent, nodes[1..]), n, false);
    }
  }

  lemma {:induction false} InlineMeets(node: Node, n: nat)
    ensures Meets(RenderInline(node, n), Inline(node), n, false)
    decreases node, 4, 0
  {
    hide Meets, RenderMedia, RenderInlineCard, RenderMention, RenderText, MediaPieces, CardPieces, MentionPieces, TextPieces;
    match node.kind
    case HardBreak => BreakMeets(n);
    case InlineCard => CardMeets(node, n);
    case Media => MediaMeets(node, n, false);
    case Mention => MentionMeets(node, n);
    case TextNode => TextNodeMeets(node, n);
    case _ =>
      LineMeets(node, n);
      EscapedStandInMeets(node, n);
  }

  lemma BreakMeets(n: nat)
    ensures Meets(Plainly("  \n"), [Words("\n")], n, false)
  {
    ShowsItself("\n", false);
    SpacingShowsNothing("  ", false);
    ShowsConcat("  ", "\n", "", "\n", false);
    assert "  " + "\n" == "  \n" && "" + "\n" == "\n";
    WordsMeet("  \n", "\n", n, false);
  }

  lemma EscapedStandInMeets(node: Node, n: nat)
    ensures Meets(Plainly(EscapeText(ReadableFallback(node))), [Words(StandIn(node))], n, false)
  {
    StandInIs(node);
    EscapeTextIsOnePass(StandIn(node));
    EscapedShows(StandIn(node));
    WordsMeet(EscapeText(StandIn(node)), StandIn(node), n, false);
  }

  lemma {:induction false} LabelMeets(node: Node, n: nat)
    ensures Meets(RenderLabel(node, n), Label(node), n, false)
    decreases node, 5, 0
  {
    LineMeets(node, n);
    InlineMeets(node, n);
  }

  lemma {:induction false} LabelsMeet(parent: Node, nodes: seq<Node>, n: nat)
    requires Below(nodes, parent)
    ensures Meets(Joined(RenderLabels(parent, nodes, n), ""), Labels(parent, nodes), n, false)
    decreases parent, 1, |nodes|
  {
    hide Meets;
    if nodes == [] {
      NothingMeets(n, false);
    } else {
      var r := RenderLabel(nodes[0], n);
      LabelMeets(nodes[0], n);
      LabelsMeet(parent, nodes[1..], n + |r.refs|);
      hide Joined;
      JoinedSpacedMeets(r, RenderLabels(parent, nodes[1..], n + |r.refs|), "", Label(nodes[0]), Labels(parent, nodes[1..]), n, false);
    }
  }

  // ---------- blocks ----------

  lemma {:induction false} OutlineMeets(node: Node, n: nat)
    ensures Meets(RenderBlocks(node, n), Outline(node), n, true)
    decreases node, 2, 0
  {
    hide Meets;
    BlocksMeet(node, Children(node), n, "\n\n");
    TrimmedMeets(JoinedNonEmpty(RenderBlockEach(node, Children(node), n), "\n\n"), Outline(node), n);
  }

  lemma {:induction false} BlocksMeet(parent: Node, nodes: seq<Node>, n: nat, separator: string)
    requires Below(nodes, parent) && forall i | 0 <= i < |separator| :: Spacing(separator[i])
    ensures Meets(JoinedNonEmpty(RenderBlockEach(parent, nodes, n), separator), Blocks(parent, nodes), n, true)
    decreases parent, 1, |nodes|
  {
    hide Meets;
    if nodes == [] {
      NothingMeets(n, true);
    } else {
      var r := RenderBlock(nodes[0], n);
      BlockMeets(nodes[0], n);
      BlocksMeet(parent, nodes[1..], n + |r.refs|, separator);
      hide JoinedNonEmpty;
      JoinedNonEmptyMeets(r, RenderBlockEach(parent, nodes[1..], n + |r.refs|), separator, Block(nodes[0]), Blocks(parent, nodes[1..]), n);
    }
  }

  /** A media container renders its children as blocks. */
  lemma {:induction false} MediaAreBlocks(parent: Node, nodes: seq<Node>, n: nat)
    requires Below(nodes, parent)
    ensures RenderMediaEach(parent, nodes, n) == RenderBlockEach(parent, nodes, n)
  {
    if nodes != [] {
      FirstMedia(nodes[0], n);
      hide RenderBlock, RenderMedia;
      MediaAreBlocks(parent, nodes[1..], n + |RenderBlock(nodes[0], n).refs|);
    }
  }

  lemma FirstMedia(node: Node, n: nat)
    ensures node.kind.Media? ==> RenderMedia(node, n) == RenderBlock(node, n)
  {
  }

  lemma {:induction false} MediaContainerMeets(node: Node, n: nat)
    ensures Meets(JoinedNonEmpty(RenderMediaEach(node, Children(node), n), "\n"), Blocks(node, Children(node)), n, true)
    decreases node, 4, 0
  {
    MediaAreBlocks(node, Children(node), n);
    BlocksMeet(node, Children(node), n, "\n");
  }

  lemma {:induction false} BlockMeets(node: Node, n: nat)
    ensures Meets(RenderBlock(node, n), Block(node), n, true)
    decreases node, 5, 0
  {
    hide Meets, RenderMedia, MediaPieces;
    match node.kind
    case Paragraph =>
      LineMeets(node, n);
      MeetsLoosely(RenderInlineChildren(node, n), Line(node), n);
    case Heading => HeadingMeets(node, n);
    case BulletList => ListMeets(node, n, false, 0);
    case OrderedList => ListMeets(node, n, true, 0);
    case TaskList => TaskListMeets(node, n, 0);
    case Table => TableMeets(node, n);
    case MediaSingle => MediaContainerMeets(node, n);
    case MediaGroup => MediaContainerMeets(node, n);
    case Media => MediaMeets(node, n, true);
    case Rule => TextMeets("---", n, true);
    case CodeBlockNode =>
      CodeBlockMeets(node, n);
      assert node.(kind := CodeBlockNode) == node;
    case _ => OtherMeets(node, n);
  }

  lemma {:induction false} OtherMeets(node: Node, n: nat)
    ensures Meets(RenderBlocks(node, n), Outline(node), n, true)
    ensures Meets(Plainly(EscapeText(ReadableFallback(node))), [Words(StandIn(node))], n, true)
    decreases node, 4, 0
  {
    OutlineMeets(node, n);
    EscapedStandInMeets(node, n);
    MeetsLoosely(Plainly(EscapeText(ReadableFallback(node))), [Words(StandIn(node))], n);
  }

  lemma {:induction false} HeadingMeets(node: Node, n: nat)
    ensures var level := NumberOf(node.attrs, "level", 1);
            Meets(Around(Repeat('#', Level(level)) + " ", RenderInlineChildren(node, n), ""), [Words(Hashes(level))] + Line(node), n, true)
    decreases node, 4, 0
  {
    var level := NumberOf(node.attrs, "level", 1);
    LineMeets(node, n);
    MeetsLoosely(RenderInlineChildren(node, n), Line(node), n);
    assert Repeat('#', Level(level)) == Hashes(level);
    hide Meets, Hashes, Level;
    SymbolMeets(Hashes(level), RenderInlineChildren(node, n), Line(node), n, true);
    assert Hashes(level) + " " + RenderInlineChildren(node, n).text
        == Repeat('#', Level(level)) + " " + RenderInlineChildren(node, n).text + "";
  }

  /** A symbol and a space before a rendered piece. */
  lemma SymbolMeets(symbol: string, r: Rendered, ps: seq<Piece>, n: nat, loosely: bool)
    requires Meets(r, ps, n, loosely)
    ensures Meets(Rendered(symbol + " " + r.text, r.refs), [Words(symbol)] + ps, n, loosely)
  {
    hide Meets;
    TextMeets(symbol, n, loosely);
    SpacingMeets(" ", n, loosely);
    MeetsConcat(Plainly(symbol), Plainly(" "), [Words(symbol)], [], n, loosely);
    assert [Words(symbol)] + [] == [Words(symbol)] && [] + r.refs == r.refs && Plainly(symbol).refs + [] == [];
    MeetsConcat(Rendered(symbol + " ", []), r, [Words(symbol)], ps, n, loosely);
  }

  // ---------- lists ----------

  lemma {:induction false} ListMeets(node: Node, n: nat, ordered: bool, indentation: nat)
    ensures var number := if ordered then Some(NumberOf(node.attrs, "order", 1)) else None;
            Meets(RenderList(node, n, ordered, indentation), Items(node, Children(node), number), n, true)
    decreases node, 4, 0
  {
    var number := NumberOf(node.attrs, "order", 1);
    ItemsMeet(node, Children(node), n, ordered, number, indentation);
  }

  lemma {:induction false} ItemsMeet(parent: Node, items: seq<Node>, n: nat, ordered: bool, number: int, indentation: nat)
    requires Below(items, parent)
    ensures Meets(Joined(RenderItems(parent, items, n, ordered, number, indentation), "\n"),
                  Items(parent, items, if ordered then Some(number) else None), n, true)
    decreases parent, 1, |items|
  {
    hide Meets, RenderItem, Item, IntText, ItemPrefix;
    if items == [] {
      NothingMeets(n, true);
    } else {
      var prefix := ItemPrefix(ordered, number);
      PrefixIs(ordered, number);
      var r := RenderItem(items[0], n, prefix, indentation);
      var rest := RenderItems(parent, items[1..], n + |r.refs|, ordered, number + 1, indentation);
      var next := if ordered then Some(number + 1) else None;
      ItemMeets(items[0], n, prefix, indentation);
      ItemsMeet(parent, items[1..], n + |r.refs|, ordered, number + 1, indentation);
      hide Joined;
      JoinedSpacedMeets(r, rest, "\n", [Words(prefix)] + Item(items[0]), Items(parent, items[1..], next), n, true);
      assert RenderItems(parent, items, n, ordered, number, indentation) == [r] + rest;
    }
  }

  lemma PrefixIs(ordered: bool, number: int)
    ensures ItemPrefix(ordered, number) == if ordered then IntText(number) + "." else "-"
  {
  }

  lemma {:induction false} ItemMeets(item: Node, n: nat, prefix: string, indentation: nat)
    ensures Meets(RenderItem(item, n, prefix, indentation), [Words(prefix)] + Item(item), n, true)
    decreases item, 4, 0
  {
    var children := Children(item);
    hide Meets;
    if children == [] {
      EmptyItemMeets(prefix, indentation, n);
    } else {
      var labelled := RenderLabel(children[0], n);
      var head := Around(LinePrefix(prefix, indentation), labelled, "");
      var rest := RenderRest(item, children[1..], n + |head.refs|, indentation + 2);
      LabelMeets(children[0], n);
      ItemHeadMeets(prefix, indentation, labelled, Label(children[0]), n);
      RestMeets(item, children[1..], n + |head.refs|, indentation + 2);
      hide JoinedNonEmpty, Around, LinePrefix;
      JoinedNonEmptyMeets(head, rest, "\n", [Words(prefix)] + Label(children[0]), Blocks(item, children[1..]), n);
      assert [Words(prefix)] + Label(children[0]) + Blocks(item, children[1..]) == [Words(prefix)] + Item(item);
    }
  }

  lemma EmptyItemMeets(prefix: string, indentation: nat, n: nat)
    ensures Meets(JoinedNonEmpty([Plainly(LinePrefix(prefix, indentation))], "\n"), [Words(prefix)] + [], n, true)
  {
    NothingMeets(n, true);
    ItemHeadMeets(prefix, indentation, Plainly(""), [], n);
    var line := Plainly(LinePrefix(prefix, indentation));
    assert LinePrefix(prefix, indentation) + "" + "" == LinePrefix(prefix, indentation);
    AdfConversion.JoinedFirstNonEmpty([line], "\n");
    assert JoinedNonEmpty([line], "\n") == line;
  }

  lemma ItemHeadMeets(prefix: string, indentation: nat, labelled: Rendered, ps: seq<Piece>, n: nat)
    requires Meets(labelled, ps, n, false)
    ensures Meets(Around(LinePrefix(prefix, indentation), labelled, ""), [Words(prefix)] + ps, n, true)
  {
    var blank, line := Repeat(' ', indentation), Rendered(prefix + " " + labelled.text, labelled.refs);
    MeetsLoosely(labelled, ps, n);
    SpacingMeets(blank, n, true);
    hide *;
    SymbolMeets(prefix, labelled, ps, n, true);
    PlainHasNoRefs(blank, line, n);
    MeetsConcat(Plainly(blank), line, [], [Words(prefix)] + ps, n, true);
    assert [] + ([Words(prefix)] + ps) == [Words(prefix)] + ps;
    HeadText(prefix, indentation, labelled);
  }

  lemma PlainHasNoRefs(text: string, r: Rendered, n: nat)
    ensures Plainly(text).text == text && Plainly(text).refs == [] && Plainly(text).refs + r.refs == r.refs
  {
  }

  lemma HeadText(prefix: string, indentation: nat, labelled: Rendered)
    ensures Around(LinePrefix(prefix, indentation), labelled, "")
         == Rendered(Repeat(' ', indentation) + (prefix + " " + labelled.text), labelled.refs)
  {
    assert LinePrefix(prefix, indentation) + labelled.text + "" == Repeat(' ', indentation) + (prefix + " " + labelled.text);
  }

  lemma {:induction false} RestMeets(parent: Node, nodes: seq<Node>, n: nat, indentation: nat)
    requires Below(nodes, parent)
    ensures Meets(JoinedNonEmpty(RenderRest(parent, nodes, n, indentation), "\n"), Blocks(parent, nodes), n, true)
    decreases parent, 1, |nodes|
  {
    hide Meets;
    if nodes == [] {
      NothingMeets(n, true);
    } else {
      var r := RenderNested(nodes[0], n, indentation);
      NestedMeets(nodes[0], n, indentation);
      RestMeets(parent, nodes[1..], n + |r.refs|, indentation);
      hide JoinedNonEmpty;
      JoinedNonEmptyMeets(r, RenderRest(parent, nodes[1..], n + |r.refs|, indentation), "\n",
                          Block(nodes[0]), Blocks(parent, nodes[1..]), n);
    }
  }

  lemma {:induction false} NestedMeets(node: Node, n: nat, indentation: nat)
    ensures Meets(RenderNested(node, n, indentation), Block(node), n, true)
    decreases node, 6, 0
  {
    hide Meets, Indented;
    match node.kind
    case BulletList => ListMeets(node, n, false, indentation);
    case OrderedList => ListMeets(node, n, true, indentation);
    case TaskList => TaskListMeets(node, n, indentation);
    case _ =>
      BlockMeets(node, n);
      IndentedMeets(RenderBlock(node, n), indentation, Block(node), n);
  }

  lemma {:induction false} TaskListMeets(node: Node, n: nat, indentation: nat)
    ensures Meets(RenderTaskList(node, n, indentation), Tasks(node, Children(node)), n, true)
    decreases node, 4, 0
  {
    TasksMeet(node, Children(node), n, indentation);
  }

  lemma {:induction false} TasksMeet(parent: Node, items: seq<Node>, n: nat, indentation: nat)
    requires Below(items, parent)
    ensures Meets(Joined(RenderTasks(parent, items, n, indentation), "\n"), Tasks(parent, items), n, true)
    decreases parent, 1, |items|
  {
    hide Meets, RenderTask, Task, Done;
    if items == [] {
      NothingMeets(n, true);
    } else {
      var r := RenderTask(items[0], n, indentation);
      var rest := RenderTasks(parent, items[1..], n + |r.refs|, indentation);
      var box := if Done(items[0]) then "- [x]" else "- [ ]";
      TaskMeets(items[0], n, indentation);
      TasksMeet(parent, items[1..], n + |r.refs|, indentation);
      hide Joined;
      JoinedSpacedMeets(r, rest, "\n", [Words(box)] + Task(items[0]), Tasks(parent, items[1..]), n, true);
    }
  }

  lemma DoneIs(item: Node)
    ensures IsDone(item) <==> Done(item)
  {
    var state := StringOf(item.attrs, "state");
    if state.Some? {
      var up := PerChar(state.value, (c: char) => [Upper(c)]);
      UpperAt(state.value, (c: char) => [Upper(c)]);
      assert forall i | 0 <= i < |up| :: up[i] == Upper(state.value[i]);
      if |state.value| == 4 {
        assert up == "DONE" <==> up[0] == 'D' && up[1] == 'O' && up[2] == 'N' && up[3] == 'E';
        assert "done"[0] == 'd' && "done"[1] == 'o' && "done"[2] == 'n' && "done"[3] == 'e';
      }
    }
  }

  lemma {:induction false} UpperAt(s: string, f: char -> string)
    requires forall c :: f(c) == [Upper(c)]
    ensures |PerChar(s, f)| == |s| && forall i | 0 <= i < |s| :: PerChar(s, f)[i] == Upper(s[i])
  {
    if s != "" {
      UpperAt(s[1..], f);
    }
  }

  lemma {:induction false} TaskMeets(item: Node, n: nat, indentation: nat)
    ensures Meets(RenderTask(item, n, indentation), [Words(if Done(item) then "- [x]" else "- [ ]")] + Task(item), n, true)
    decreases item, 4, 0
  {
    DoneIs(item);
    hide Meets, Done, IsDone;
    var box := if Done(item) then "- [x]" else "- [ ]";
    var labelled := Joined(RenderLabels(item, Children(item), n), "");
    LabelsMeet(item, Children(item), n);
    ItemHeadMeets(box, indentation, labelled, Task(item), n);
    assert LinePrefix(box, indentation) == TaskPrefix(item, indentation);
  }

  // ---------- tables ----------

  /** Each of the rendered pieces meets its part of the outline. */
  ghost predicate MeetsEach(rs: seq<Rendered>, parts: seq<seq<Piece>>, n: nat)
    decreases |rs|
  {
    |rs| == |parts| && (rs == [] || (Meets(rs[0], parts[0], n, true) && MeetsEach(rs[1..], parts[1..], n + |rs[0].refs|)))
  }

  ghost predicate MeetsRows(rows: seq<seq<Rendered>>, parts: seq<seq<seq<Piece>>>, n: nat)
    decreases |rows|
  {
    |rows| == |parts| && (rows == [] || (MeetsEach(rows[0], parts[0], n) && MeetsRows(rows[1..], parts[1..], n + |AllRefs(rows[0])|)))
  }

  lemma {:induction false} CellMeets(cell: Node, n: nat)
    ensures Meets(RenderCell(cell, n), Outline(cell), n, true)
    decreases cell, 3, 0
  {
    OutlineMeets(cell, n);
    var r := RenderBlocks(cell, n);
    assert KeepsShown(CellChar);
    PerCharShows(r.text, Flat(Outline(cell), n), CellChar);
  }

  lemma {:induction false} CellsMeet(parent: Node, cells: seq<Node>, n: nat)
    requires Below(cells, parent)
    ensures MeetsEach(RenderCells(parent, cells, n), Cells(parent, cells), n)
    decreases parent, 1, |cells|
  {
    hide Meets, RenderCell;
    if cells != [] {
      var r := RenderCell(cells[0], n);
      CellMeets(cells[0], n);
      CellsMeet(parent, cells[1..], n + |r.refs|);
    }
  }

  lemma {:induction false} RowsMeet(parent: Node, rows: seq<Node>, n: nat)
    requires Below(rows, parent)
    ensures MeetsRows(RenderRows(parent, rows, n), Rows(parent, rows), n)
    decreases parent, 1, |rows|
  {
    hide MeetsEach;
    if rows != [] {
      var cells := RenderCells(rows[0], Children(rows[0]), n);
      CellsMeet(rows[0], Children(rows[0]), n);
      RowsMeet(parent, rows[1..], n + |AllRefs(cells)|);
    }
  }

  lemma BarMeets(text: string, n: nat)
    requires text in ["| ", " |", " | "]
    ensures Meets(Plainly(text), [Words("|")], n, true)
  {
    SpacingShowsNothing(" ", true);
    ShowsItself("|", true);
    ShowsConcat("|", " ", "|", "", true);
    ShowsConcat(" ", "|", "", "|", true);
    ShowsConcat(" ", "| ", "", "|" + "", true);
    assert "|" + " " == "| " && " " + "|" == " |" && " " + "| " == " | " && "|" + "" == "|" && "" + "|" == "|";
    WordsMeet(text, "|", n, true);
  }

  lemma {:induction false} BarredMeets(rs: seq<Rendered>, parts: seq<seq<Piece>>, n: nat)
    requires MeetsEach(rs, parts, n)
    ensures Meets(Joined(rs, " | "), Between(parts, [Words("|")]), n, true)
    decreases |rs|
  {
    hide Meets;
    if rs == [] {
      NothingMeets(n, true);
    } else {
      var r, rest := rs[0], rs[1..];
      BarredMeets(rest, parts[1..], n + |r.refs|);
      BarMeets(" | ", n + |r.refs|);
      hide Joined;
      JoinedMeets(r, rest, " | ", parts[0], [Words("|")], Between(parts[1..], [Words("|")]), n, true);
      assert rs == [r] + rest;
      if |rs| == 1 {
        assert parts[0] + [] + [] == parts[0];
      }
    }
  }

  lemma {:induction false} BlankCellsMeet(k: nat, n: nat)
    ensures MeetsEach(Blanks(k), Same([], k), n)
  {
    if k > 0 {
      NothingMeets(n, true);
      BlankCellsMeet(k - 1, n);
      hide Meets;
      assert Same([], k)[1..] == Same([], k - 1) && Blanks(k)[1..] == Blanks(k - 1);
    }
  }

  lemma {:induction false} MeetsEachConcat(rs: seq<Rendered>, ss: seq<Rendered>, ps: seq<seq<Piece>>, qs: seq<seq<Piece>>, n: nat)
    requires MeetsEach(rs, ps, n) && MeetsEach(ss, qs, n + |AllRefs(rs)|)
    ensures MeetsEach(rs + ss, ps + qs, n) && AllRefs(rs + ss) == AllRefs(rs) + AllRefs(ss)
    decreases |rs|
  {
    hide Meets, MeetsEach, AllRefs;
    if rs == [] {
      NothingBefore(rs, ss, ps, qs, n);
    } else {
      AllRefsFirst(rs);
      FirstMeets(rs, ps, n);
      MeetsEachConcat(rs[1..], ss, ps[1..], qs, n + |rs[0].refs|);
      EachFirst(rs[0], rs[1..] + ss, ps[0], ps[1..] + qs, n);
      FirstOfConcat(rs, ss);
      FirstOfConcat(ps, qs);
      assert rs[0].refs + (AllRefs(rs[1..]) + AllRefs(ss)) == rs[0].refs + AllRefs(rs[1..]) + AllRefs(ss);
    }
  }

  lemma NothingBefore(rs: seq<Rendered>, ss: seq<Rendered>, ps: seq<seq<Piece>>, qs: seq<seq<Piece>>, n: nat)
    requires rs == [] && MeetsEach(rs, ps, n)
    ensures rs + ss == ss && ps + qs == qs && AllRefs(rs) == [] && AllRefs(rs) + AllRefs(ss) == AllRefs(ss)
  {
  }

  lemma FirstOfConcat<T>(a: seq<T>, b: seq<T>)
    requires a != []
    ensures a + b == [a[0]] + (a[1..] + b)
  {
  }

  lemma FirstMeets(rs: seq<Rendered>, parts: seq<seq<Piece>>, n: nat)
    requires rs != [] && MeetsEach(rs, parts, n)
    ensures parts != [] && Meets(rs[0], parts[0], n, true) && MeetsEach(rs[1..], parts[1..], n + |rs[0].refs|)
  {
  }

  lemma FirstRowMeets(rows: seq<seq<Rendered>>, parts: seq<seq<seq<Piece>>>, n: nat)
    requires rows != [] && MeetsRows(rows, parts, n)
    ensures parts != [] && MeetsEach(rows[0], parts[0], n) && MeetsRows(rows[1..], parts[1..], n + |AllRefs(rows[0])|)
  {
  }

  lemma AllRefsFirst(rs: seq<Rendered>)
    requires rs != []
    ensures AllRefs(rs) == rs[0].refs + AllRefs(rs[1..])
  {
  }

  lemma EachFirst(r: Rendered, rest: seq<Rendered>, ps: seq<Piece>, parts: seq<seq<Piece>>, n: nat)
    requires Meets(r, ps, n, true) && MeetsEach(rest, parts, n + |r.refs|)
    ensures MeetsEach([r] + rest, [ps] + parts, n) && AllRefs([r] + rest) == r.refs + AllRefs(rest)
  {
    hide Meets;
    assert ([r] + rest)[1..] == rest && ([ps] + parts)[1..] == parts;
  }

  function FilledCells(cells: seq<Rendered>, width: nat): seq<Rendered> {
    cells + Blanks(if width > |cells| then width - |cells| else 0)
  }

  lemma FilledMeet(cells: seq<Rendered>, parts: seq<seq<Piece>>, width: nat, n: nat)
    requires MeetsEach(cells, parts, n)
    ensures MeetsEach(FilledCells(cells, width), Filled(parts, width), n)
    ensures AllRefs(FilledCells(cells, width)) == AllRefs(cells)
  {
    assert |parts| == |cells|;
    hide MeetsEach, AllRefs, Blanks;
    var k := if width > |cells| then width - |cells| else 0;
    AdfConversion.BlanksGood(k, n);
    BlankCellsMeet(k, n + |AllRefs(cells)|);
    MeetsEachConcat(cells, Blanks(k), parts, Same([], k), n);
    AdfConversion.EmptyConcat(AllRefs(cells));
  }

  lemma RowIs(cells: seq<Rendered>, parts: seq<seq<Piece>>, width: nat)
    ensures RowLine(cells, width) == Around("| ", Joined(FilledCells(cells, width), " | "), " |")
    ensures RowLine(cells, width).refs == AllRefs(FilledCells(cells, width)) == Joined(FilledCells(cells, width), " | ").refs
    ensures Row(parts, width) == [Words("|")] + Between(Filled(parts, width), [Words("|")]) + [Words("|")]
  {
  }

  lemma RowMeets(cells: seq<Rendered>, parts: seq<seq<Piece>>, width: nat, n: nat)
    requires MeetsEach(cells, parts, n)
    ensures Meets(RowLine(cells, width), Row(parts, width), n, true) && RowLine(cells, width).refs == AllRefs(cells)
  {
    BarMeets("| ", n);
    hide *;
    RowIs(cells, parts, width);
    FilledMeet(cells, parts, width, n);
    var line := Joined(FilledCells(cells, width), " | ");
    BarredMeets(FilledCells(cells, width), Filled(parts, width), n);
    BarMeets(" |", n + |line.refs|);
    AroundMeets("| ", line, " |", [Words("|")], Between(Filled(parts, width), [Words("|")]), [Words("|")], n, true);
  }

  lemma {:induction false} RulesMeet(k: nat, n: nat)
    ensures Texts(RuleCells(k)) == Rules(k) && AllRefs(RuleCells(k)) == []
    ensures MeetsEach(RuleCells(k), Same([Words("---")], k), n) && |RuleCells(k)| == k
  {
    if k > 0 {
      TextMeets("---", n, true);
      RulesMeet(k - 1, n);
      hide Meets;
      assert Same([Words("---")], k)[1..] == Same([Words("---")], k - 1) && RuleCells(k)[1..] == RuleCells(k - 1);
    }
  }

  function RuleCells(k: nat): seq<Rendered> {
    if k == 0 then [] else [Plainly("---")] + RuleCells(k - 1)
  }

  lemma RuleMeets(width: nat, n: nat)
    ensures Meets(RuleLine(width), Row(Same([Words("---")], width), width), n, true) && RuleLine(width).refs == []
  {
    RulesMeet(width, n);
    RowMeets(RuleCells(width), Same([Words("---")], width), width, n);
    assert RuleCells(width) + Blanks(0) == RuleCells(width);
    assert RuleLine(width) == RowLine(RuleCells(width), width);
  }

  lemma {:induction false} RowLinesMeet(rows: seq<seq<Rendered>>, parts: seq<seq<seq<Piece>>>, width: nat, n: nat)
    requires MeetsRows(rows, parts, n)
    ensures Meets(Joined(RowLines(rows, width), "\n"), AllRows(parts, width), n, true)
    decreases |rows|
  {
    hide Meets, MeetsEach, RowLine, Row;
    if rows == [] {
      NothingMeets(n, true);
    } else {
      var r := RowLine(rows[0], width);
      RowMeets(rows[0], parts[0], width, n);
      RowLinesMeet(rows[1..], parts[1..], width, n + |r.refs|);
      hide Joined;
      JoinedSpacedMeets(r, RowLines(rows[1..], width), "\n", Row(parts[0], width), AllRows(parts[1..], width), n, true);
    }
  }

  lemma {:induction false} SameWidth(rows: seq<seq<Rendered>>, parts: seq<seq<seq<Piece>>>, n: nat)
    requires MeetsRows(rows, parts, n)
    ensures Width(rows) == Width(parts)
    decreases |rows|
  {
    if rows != [] {
      SameWidth(rows[1..], parts[1..], n + |AllRefs(rows[0])|);
    }
  }

  lemma {:induction false} TableMeets(node: Node, n: nat)
    ensures Meets(RenderTable(node, n), TablePieces(node), n, true)
    decreases node, 4, 0
  {
    var rows := RenderRows(node, Children(node), n);
    var parts := Rows(node, Children(node));
    RowsMeet(node, Children(node), n);
    if rows == [] {
      NothingMeets(n, true);
    } else {
      SameWidth(rows, parts, n);
      hide Meets, MeetsEach, RowLine, Row, RuleLine, Width;
      TableLinesMeet(rows, parts, Width(rows), n);
    }
  }

  lemma TableLinesMeet(rows: seq<seq<Rendered>>, parts: seq<seq<seq<Piece>>>, width: nat, n: nat)
    requires rows != [] && MeetsRows(rows, parts, n)
    ensures Meets(Joined([RowLine(rows[0], width)] + ([RuleLine(width)] + RowLines(rows[1..], width)), "\n"),
                  Row(parts[0], width) + Row(Same([Words("---")], width), width) + AllRows(parts[1..], width), n, true)
  {
    NewlineSpaces();
    hide *;
    FirstRowMeets(rows, parts, n);
    var m := n + |AllRefs(rows[0])|;
    var first, line, lines := RowLine(rows[0], width), RuleLine(width), RowLines(rows[1..], width);
    var top, rule, others := Row(parts[0], width), Row(Same([Words("---")], width), width), AllRows(parts[1..], width);
    RowMeets(rows[0], parts[0], width, n);
    RuleMeets(width, m);
    RowLinesMeet(rows[1..], parts[1..], width, m);
    JoinedSpacedMeets(line, lines, "\n", rule, others, m, true);
    JoinedSpacedMeets(first, [line] + lines, "\n", top, rule + others, n, true);
    assert top + (rule + others) == top + rule + others;
  }

  lemma NewlineSpaces()
    ensures forall i | 0 <= i < |"\n"| :: Spacing("\n"[i])
  {
  }

  // ---------- the converted document ----------

  /** The Markdown of a document shows its outline: every text, symbol and reference of it, in
      document order, and nothing else but white space, escapes and line breaks of cells; the
      references recorded are the outline's. */
  lemma {:induction false} ConvertShowsOutline(document: Node)
    requires document.kind.Doc?
    ensures Shows(Convert(Some(document)).text, Flat(Outline(document), 0), true)
    ensures Convert(Some(document)).refs == Listed(Outline(document), 0)
  {
    OutlineMeets(document, 0);
  }

  /** A line of text keeps its white space too. */
  lemma {:induction false} LineShowsExactly(node: Node, n: nat)
    ensures Shows(RenderInlineChildren(node, n).text, Flat(Line(node), n), false)
    ensures RenderInlineChildren(node, n).refs == Listed(Line(node), n)
  {
    LineMeets(node, n);
  }

  /** And a code block reads back as its language and the whole text of its children. */
  lemma CodeNodeReadsBack(node: Node)
    requires FitsInfoLine(FirstPresent([StringOf(node.attrs, "language")], ""))
    ensures ReadCodeBlock(RenderCodeBlock(node).text)
         == Some((FirstPresent([StringOf(node.attrs, "language")], ""), WithoutLastNewline(CodeWords(Children(node))) + "\n"))
  {
    hide ReadCodeBlock, CodeBlock, FitsInfoLine, WithoutLastNewline, StringOf, CodeText, CodeWords;
    FirstOfTwo(StringOf(node.attrs, "language"), None, "");
    CodeWordsAre(Children(node));
    CodeBlockRoundTripIff(FirstPresent([StringOf(node.attrs, "language")], ""), CodeWords(Children(node)));
  }
}
