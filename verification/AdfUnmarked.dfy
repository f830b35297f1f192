/** Neutralising source texts one by one does not keep reserved comment markers out of a
    converted document: some strings are printed as they are, and two harmless ones may meet.
    A document none of whose strings could open a comment, alone or together with what follows
    it, prints none. */
module AdfUnmarked {
  import opened Wrappers
  import opened AdfText
  import opened AdfReferences
  import opened Adf

  ghost predicate HasMarker(s: string) { exists i: nat :: i <= |s| && IsMarkerAt(s[i..]) }

  const RESERVED := "<!--comments:end-->"

  function Leaf(kind: NodeKind, attrs: map<string, Attr>, content: Content): Node { Node(kind, None, attrs, [], content) }

  function Card(url: string): Node { Leaf(InlineCard, map["url" := TextAttr(url)], Absent) }

  function CardDocument(url: string): Node {
    Leaf(Doc, map[], Present([Leaf(Paragraph, map[], Present([Card(url)]))]))
  }

  lemma EndIsReserved()
    ensures IsReserved("comments:end-->")
  {
    assert "comments:end-->"[12..] == "-->" && Spaces("-->") == 0;
    assert "comments:end" <= "comments:end-->";
    hide MarkerChars;
  }

  lemma ReservedIsMarker()
    ensures IsMarkerAt(RESERVED) && '/' !in RESERVED
  {
    EndIsReserved();
    hide IsReserved;
    assert RESERVED[4..] == "comments:end-->" && Spaces("comments:end-->") == 0;
    assert RESERVED[4 + 0..] == RESERVED[4..];
  }

  lemma BeginsWithSlash(url: string)
    ensures BeginsWith(url, "/browse/") ==> url[0] == '/'
  {
    assert "/browse/"[0] == '/';
  }

  lemma {:induction false} NoIssue(url: string)
    requires '/' !in url
    ensures JiraIssueId(url).None?
  {
    if url != "" {
      BeginsWithSlash(url);
      NoIssue(url[1..]);
    }
  }

  lemma OneParagraph(card: Node)
    requires card.kind.InlineCard?
    ensures var r := RenderInlineCard(card, 0);
            var doc := Leaf(Doc, map[], Present([Leaf(Paragraph, map[], Present([card]))]));
            Convert(Some(doc)).text == TrimEnd(TrimStart(r.text))
  {
    hide RenderInlineCard, TrimEnd, TrimStart;
    var r := RenderInlineCard(card, 0);
    var paragraph := Leaf(Paragraph, map[], Present([card]));
    var doc := Leaf(Doc, map[], Present([paragraph]));
    assert RenderInlineEach(paragraph, [card], 0) == [r] by {
      assert [card][1..] == [];
    }
    OneText(r);
    assert RenderBlock(paragraph, 0).text == r.text;
    var b := RenderBlock(paragraph, 0);
    assert RenderBlockEach(doc, [paragraph], 0) == [b] by {
      assert [paragraph][1..] == [];
    }
    OneText(b);
  }

  lemma OneText(r: Rendered)
    ensures Joined([r], "").text == r.text && JoinedNonEmpty([r], "\n\n").text == r.text
  {
    assert [r][1..] == [] && Texts([]) == [] && Texts([r]) == [r.text] && [r.text][1..] == [];
    assert NonEmpty([r.text]) == if r.text == "" then [] else [r.text];
  }

  lemma CardIsPrinted(url: string)
    requires url != "" && '/' !in url && !IsSpace(url[0]) && !IsSpace(url[|url| - 1])
    ensures Convert(Some(CardDocument(url))).text == url
  {
    NoIssue(url);
    OneParagraph(Card(url));
    hide Convert;
    assert RenderInlineCard(Card(url), 0).text == url;
  }

  lemma MarkedWhole(s: string)
    requires IsMarkerAt(s)
    ensures HasMarker(s)
  {
    hide IsMarkerAt;
    assert s[0..] == s;
  }

  /** An inline card is printed as it is: its address may be a marker. */
  lemma CardPrintsMarker()
    ensures HasMarker(Convert(Some(CardDocument(RESERVED))).text)
  {
    ReservedIsMarker();
    hide IsMarkerAt, Convert, HasMarker, CardDocument;
    CardIsPrinted(RESERVED);
    MarkedWhole(RESERVED);
  }

  // ---------- texts that open no comment ----------

  /** Behind every opening bracket stands something, and not an exclamation mark. */
  predicate Tame(s: string) { forall i | 0 <= i < |s| && s[i] == '<' :: i + 1 < |s| && s[i + 1] != '!' }

  /** The same, but for a bracket at the very end. */
  predicate Quiet(s: string) { forall i | 0 <= i < |s| - 1 && s[i] == '<' :: s[i + 1] != '!' }

  lemma QuietHasNoMarker(s: string)
    requires Quiet(s)
    ensures !HasMarker(s)
  {
    forall i: nat | i <= |s| ensures !IsMarkerAt(s[i..]) {
      MarkerOpens(s, i);
    }
  }

  lemma MarkerOpens(s: string, i: nat)
    requires i <= |s|
    ensures IsMarkerAt(s[i..]) ==> i + 1 < |s| && s[i] == '<' && s[i + 1] == '!'
  {
    if "<!--" <= s[i..] {
      assert s[i..][0] == "<!--"[0] && s[i..][1] == "<!--"[1];
    }
  }

  lemma TameConcat(a: string, b: string)
    requires Tame(a)
    ensures Tame(b) ==> Tame(a + b)
    ensures Quiet(b) ==> Quiet(a + b)
  {
  }

  /** What may follow a bracket at the end of a piece. */
  predicate Parts(separator: string) { Tame(separator) && separator != "" && separator[0] != '!' }

  lemma QuietParted(a: string, separator: string, b: string)
    requires Quiet(a) && Parts(separator) && Quiet(b)
    ensures Quiet(a + separator + b)
  {
    assert Tame(a + separator);
    TameConcat(a + separator, b);
  }

  /** A rewrite of characters that only lets brackets through as they are. */
  ghost predicate KeepsBrackets(f: char -> string) {
    && f('<') == "<"
    && forall c | c != '<' :: f(c) != "" && Tame(f(c)) && (c != '!' ==> f(c)[0] != '!')
  }

  lemma {:induction false} PerCharTame(s: string, f: char -> string)
    requires KeepsBrackets(f)
    ensures Tame(s) ==> Tame(PerChar(s, f))
    ensures Quiet(s) ==> Quiet(PerChar(s, f))
    ensures s != "" && s[0] != '!' ==> PerChar(s, f) != "" && PerChar(s, f)[0] != '!'
  {
    if s != "" {
      PerCharTame(s[1..], f);
      assert s == [s[0]] + s[1..];
      if s[0] != '<' {
        TameConcat(f(s[0]), PerChar(s[1..], f));
      }
    }
  }

  lemma {:induction false} SafeTextTame(s: string)
    requires Tame(s)
    ensures Tame(SafeSourceText(s))
    ensures s != "" && s[0] != '!' ==> SafeSourceText(s) != "" && SafeSourceText(s)[0] != '!'
  {
    hide IsMarkerAt;
    if s != "" {
      assert s == [s[0]] + s[1..];
      SafeTextTame(s[1..]);
      if IsMarkerAt(s) {
        TameConcat("&lt;", SafeSourceText(s[1..]));
      } else if s[0] != '<' {
        TameConcat([s[0]], SafeSourceText(s[1..]));
      }
    }
  }

  lemma {:induction false} TrimmedQuiet(s: string)
    requires Quiet(s)
    ensures Quiet(TrimStart(s)) && Quiet(TrimEnd(s))
    decreases |s|
  {
    if s != "" {
      TrimmedQuiet(s[1..]);
      TrimmedQuiet(s[..|s| - 1]);
    }
  }

  lemma TamePlaceholder(i: nat, marks: seq<TextMark>)
    ensures Tame(Placeholder(i, marks))
  {
    PlaceholderIsMark(i, marks);
    NoBrackets(i, marks);
  }

  lemma {:induction false} NamesHaveNoBracket(marks: seq<TextMark>)
    ensures '<' !in JoinNames(marks)
  {
    if |marks| > 1 {
      NamesHaveNoBracket(marks[1..]);
    }
  }

  lemma NoBrackets(i: nat, marks: seq<TextMark>)
    ensures '<' !in Placeholder(i, marks)
  {
    DigitsAreDigits(i);
    NamesHaveNoBracket(marks);
    assert '<' !in Padded6(i);
    hide Padded6, JoinNames;
  }

  lemma {:induction false} WrapTame(rendered: string, marks: seq<TextMark>)
    requires Tame(rendered)
    ensures Tame(Wrap(rendered, marks))
    decreases |marks|
  {
    if marks != [] {
      var outer :=
        match marks[0]
        case Strong => "**" + rendered + "**"
        case Em => "*" + rendered + "*"
        case Strike => "~~" + rendered + "~~"
        case Code => rendered;
      assert Tame(outer);
      WrapTame(outer, marks[1..]);
    }
  }

  lemma MarkedTextTame(text: string, marks: seq<TextMark>)
    requires Tame(text)
    ensures Tame(MarkedText(text, marks))
  {
    EscapeTextIsOnePass(text);
    PerCharTame(text, EscapeChar);
    assert Tame(InlineCode(text));
    hide InlineCode, EscapeText;
    WrapTame(if Code in marks then InlineCode(text) else EscapeText(text), marks);
  }

  lemma CodeBlockTame(language: string, text: string)
    requires Tame(language) && Tame(text)
    ensures Tame(CodeBlock(language, text))
  {
    var fence, body := Fence(text), WithoutLastNewline(text);
    assert Tame(fence + language + "\n");
    assert Tame(body + "\n" + fence) by {
      assert Quiet(body) && Parts("\n") && Tame(fence);
    }
    TameConcat(fence + language + "\n", body + "\n" + fence);
    assert CodeBlock(language, text) == (fence + language + "\n") + (body + "\n" + fence);
  }

  // ---------- documents ----------

  ghost predicate TameAttrs(attrs: map<string, Attr>) {
    forall key | key in attrs && attrs[key].TextAttr? :: Tame(attrs[key].text)
  }

  /** None of the strings of the document opens a comment. */
  ghost predicate TameNode(node: Node)
    decreases node
  {
    && (node.text.Some? ==> Tame(node.text.value))
    && TameAttrs(node.attrs)
    && (forall i | 0 <= i < |node.marks| :: TameAttrs(node.marks[i].attrs))
    && forall i | 0 <= i < |Children(node)| :: TameNode(Children(node)[i])
  }

  ghost predicate AllTame(nodes: seq<Node>) { forall i | 0 <= i < |nodes| :: TameNode(nodes[i]) }

  lemma TameChildren(node: Node)
    requires TameNode(node)
    ensures AllTame(Children(node))
  {
  }

  lemma FallbackTame(node: Node)
    requires TameNode(node)
    ensures Tame(ReadableFallback(node)) && Tame(EscapeText(ReadableFallback(node)))
  {
    assert forall key :: StringOf(node.attrs, key).Some? ==> Tame(StringOf(node.attrs, key).value);
    hide StringOf, TameAttrs, SafeSourceText;
    var text := OrText(OrElse(node.text, OrElse(StringOf(node.attrs, "text"), OrElse(StringOf(node.attrs, "alt"),
             OrElse(StringOf(node.attrs, "label"), OrElse(StringOf(node.attrs, "shortName"),
             OrElse(StringOf(node.attrs, "displayName"), OrElse(StringOf(node.attrs, "name"),
             OrElse(StringOf(node.attrs, "title"), StringOf(node.attrs, "url"))))))))), "");
    assert Tame(text);
    SafeTextTame(text);
    assert ReadableFallback(node) == SafeSourceText(text);
    EscapeTextIsOnePass(ReadableFallback(node));
    PerCharTame(ReadableFallback(node), EscapeChar);
  }

  lemma {:induction false} LinksTame(marks: seq<NodeMark>)
    requires forall i | 0 <= i < |marks| :: TameAttrs(marks[i].attrs)
    ensures FirstLink(marks).Some? ==> Tame(FirstLink(marks).value)
  {
    if marks != [] {
      LinksTame(marks[1..]);
    }
  }

  lemma LeavesTame(node: Node, n: nat)
    requires TameNode(node)
    ensures Tame(RenderMedia(node, n).text) && Tame(RenderInlineCard(node, n).text) && Tame(RenderMention(node, n).text)
  {
    FallbackTame(node);
    TamePlaceholder(n, []);
    hide ReadableFallback, EscapeText, Placeholder;
  }

  lemma LinkTame(text: string, href: string)
    requires Tame(text) && Tame(href)
    ensures Tame("[" + text + "](" + EscapeUrl(href) + ")")
  {
    PerCharTame(href, EscapeUrlChar);
    hide EscapeUrl;
    TameConcat(text, "](");
    TameConcat("[" + text + "](", EscapeUrl(href));
  }

  lemma TextTame(node: Node, n: nat)
    requires TameNode(node)
    ensures Tame(RenderText(node, n).text)
  {
    hide SafeSourceText, MarkedText, Placeholder, FirstLink, SupportedMarks, Tame, EscapeUrl, JiraLink, JiraIssueId;
    var text := SafeSourceText(OrText(node.text, ""));
    var href, marks := FirstLink(node.marks), SupportedMarks(node.marks);
    NodeText(node);
    SafeTextTame(OrText(node.text, ""));
    TamePlaceholder(n, marks);
    MarkedTextTame(text, marks);
    LinksTame(node.marks);
    if href.Some? {
      LinkTame(MarkedText(text, marks), href.value);
    }
  }

  lemma NodeText(node: Node)
    requires TameNode(node)
    ensures Tame(OrText(node.text, ""))
  {
  }

  lemma {:induction false} CodeTextTame(children: seq<Node>)
    requires AllTame(children)
    ensures Tame(CodeText(children))
  {
    if children != [] {
      CodeTextTame(children[1..]);
      assert TameNode(children[0]);
      SafeTextTame(OrText(children[0].text, ""));
      TameConcat(SafeSourceText(OrText(children[0].text, "")), CodeText(children[1..]));
    }
  }

  lemma CodeNodeTame(node: Node)
    requires TameNode(node)
    ensures Tame(RenderCodeBlock(node).text)
  {
    CodeTextTame(Children(node));
    hide CodeText, CodeBlock;
    CodeBlockTame(OrText(StringOf(node.attrs, "language"), ""), CodeText(Children(node)));
  }

  // ---------- pieces ----------

  ghost predicate TameEach(rs: seq<Rendered>) { forall i | 0 <= i < |rs| :: Tame(rs[i].text) }

  ghost predicate QuietEach(rs: seq<Rendered>) { forall i | 0 <= i < |rs| :: Quiet(rs[i].text) }

  ghost predicate QuietTexts(texts: seq<string>) { forall i | 0 <= i < |texts| :: Quiet(texts[i]) }

  lemma {:induction false} JoinTame(rs: seq<Rendered>)
    requires TameEach(rs)
    ensures Tame(Joined(rs, "").text)
  {
    if rs != [] {
      JoinTame(rs[1..]);
      assert Texts(rs) == [rs[0].text] + Texts(rs[1..]) && Texts(rs)[1..] == Texts(rs[1..]);
      if |rs| > 1 {
        TameConcat(rs[0].text, Join(Texts(rs[1..]), ""));
        assert Join(Texts(rs), "") == rs[0].text + "" + Join(Texts(rs[1..]), "");
        assert rs[0].text + "" == rs[0].text;
      }
    }
  }

  lemma {:induction false} JoinQuiet(texts: seq<string>, separator: string)
    requires QuietTexts(texts) && Parts(separator)
    ensures Quiet(Join(texts, separator))
  {
    if |texts| > 1 {
      JoinQuiet(texts[1..], separator);
      QuietParted(texts[0], separator, Join(texts[1..], separator));
    }
  }

  lemma {:induction false} TextsQuiet(rs: seq<Rendered>)
    requires QuietEach(rs)
    ensures QuietTexts(Texts(rs)) && QuietTexts(NonEmpty(Texts(rs)))
  {
    if rs != [] {
      TextsQuiet(rs[1..]);
      assert Texts(rs) == [rs[0].text] + Texts(rs[1..]);
      assert Texts(rs)[1..] == Texts(rs[1..]);
    }
  }

  lemma JoinedQuiet(rs: seq<Rendered>, separator: string)
    requires QuietEach(rs) && Parts(separator)
    ensures Quiet(Joined(rs, separator).text) && Quiet(JoinedNonEmpty(rs, separator).text)
  {
    TextsQuiet(rs);
    JoinQuiet(Texts(rs), separator);
    JoinQuiet(NonEmpty(Texts(rs)), separator);
  }

  lemma AroundQuiet(before: string, r: Rendered, after: string)
    requires Tame(before) && Quiet(r.text) && (after == "" || Parts(after))
    ensures Quiet(Around(before, r, after).text)
  {
    TameConcat(before, r.text);
    if after != "" {
      QuietParted(before + r.text, after, "");
    } else {
      assert before + r.text + "" == before + r.text;
    }
  }

  lemma TameIsQuiet(s: string)
    requires Tame(s)
    ensures Quiet(s)
  {
  }

  lemma IndentedQuiet(r: Rendered, amount: nat)
    requires Quiet(r.text)
    ensures Quiet(Indented(r, amount).text)
  {
    assert KeepsBrackets(IndentChar(amount));
    PerCharTame(r.text, IndentChar(amount));
    TameConcat(Repeat(' ', amount), PerChar(r.text, IndentChar(amount)));
  }

  lemma PrefixTame(ordered: bool, number: int, indentation: nat)
    ensures Tame(LinePrefix(ItemPrefix(ordered, number), indentation))
  {
    DigitsAreDigits(if number < 0 then -number else number);
  }

  // ---------- the conversion ----------

  lemma {:induction false} BlocksQuiet(node: Node, n: nat)
    requires TameNode(node)
    ensures Quiet(RenderBlocks(node, n).text)
    decreases node, 2, 0
  {
    hide Quiet, TameNode, TrimStart, TrimEnd;
    TameChildren(node);
    BlockEachQuiet(node, Children(node), n);
    var joined := JoinedNonEmpty(RenderBlockEach(node, Children(node), n), "\n\n");
    Separators();
    JoinedQuiet(RenderBlockEach(node, Children(node), n), "\n\n");
    TrimmedQuiet(joined.text);
    TrimmedQuiet(TrimStart(joined.text));
  }

  lemma Separators()
    ensures Parts("\n\n") && Parts("\n") && Parts(" | ") && Parts(" |") && Tame("| ") && Tame("") && Tame("---") && Tame("  \n")
  {
  }

  lemma QuietFirst(first: Rendered, rest: seq<Rendered>)
    requires Quiet(first.text) && QuietEach(rest)
    ensures QuietEach([first] + rest)
  {
  }

  lemma TameFirst(first: Rendered, rest: seq<Rendered>)
    requires Tame(first.text) && TameEach(rest)
    ensures TameEach([first] + rest)
  {
  }

  lemma {:induction false} BlockEachQuiet(parent: Node, nodes: seq<Node>, n: nat)
    requires Below(nodes, parent) && AllTame(nodes)
    ensures QuietEach(RenderBlockEach(parent, nodes, n))
    decreases parent, 1, |nodes|
  {
    hide Quiet, TameNode;
    if nodes != [] {
      var r := RenderBlock(nodes[0], n);
      BlockQuiet(nodes[0], n);
      BlockEachQuiet(parent, nodes[1..], n + |r.refs|);
      QuietFirst(r, RenderBlockEach(parent, nodes[1..], n + |r.refs|));
    }
  }

  lemma {:induction false} BlockQuiet(node: Node, n: nat)
    requires TameNode(node)
    ensures Quiet(RenderBlock(node, n).text)
    decreases node, 5, 0
  {
    hide Quiet, Tame, TameNode, RenderMedia, RenderCodeBlock;
    Separators();
    match node.kind
    case Paragraph =>
      InlineChildrenTame(node, n);
      TameIsQuiet(RenderInlineChildren(node, n).text);
    case Heading =>
      InlineChildrenTame(node, n);
      TameIsQuiet(RenderInlineChildren(node, n).text);
      HeadingPrefix(Level(NumberOf(node.attrs, "level", 1)));
      AroundQuiet(Repeat('#', Level(NumberOf(node.attrs, "level", 1))) + " ", RenderInlineChildren(node, n), "");
    case BulletList => ListQuiet(node, n, false, 0);
    case OrderedList => ListQuiet(node, n, true, 0);
    case TaskList => TaskListQuiet(node, n, 0);
    case Table => TableQuiet(node, n);
    case MediaSingle => MediaContainerQuiet(node, n);
    case MediaGroup => MediaContainerQuiet(node, n);
    case Media =>
      LeavesTame(node, n);
      TameIsQuiet(RenderMedia(node, n).text);
    case Rule => TameIsQuiet("---");
    case CodeBlockNode =>
      CodeNodeTame(node);
      TameIsQuiet(RenderCodeBlock(node).text);
    case _ => OtherBlockQuiet(node, n);
  }

  lemma HeadingPrefix(level: nat)
    ensures Tame(Repeat('#', level) + " ")
  {
  }

  lemma {:induction false} OtherBlockQuiet(node: Node, n: nat)
    requires TameNode(node)
    ensures Quiet(RenderBlocks(node, n).text) && Quiet(EscapeText(ReadableFallback(node)))
    decreases node, 4, 0
  {
    hide Quiet, Tame, TameNode, EscapeText, ReadableFallback;
    BlocksQuiet(node, n);
    FallbackTame(node);
    TameIsQuiet(EscapeText(ReadableFallback(node)));
  }

  lemma {:induction false} MediaContainerQuiet(node: Node, n: nat)
    requires TameNode(node)
    ensures Quiet(JoinedNonEmpty(RenderMediaEach(node, Children(node), n), "\n").text)
    decreases node, 4, 0
  {
    hide Quiet, TameNode;
    TameChildren(node);
    MediaEachQuiet(node, Children(node), n);
    Separators();
    JoinedQuiet(RenderMediaEach(node, Children(node), n), "\n");
  }

  lemma {:induction false} MediaEachQuiet(parent: Node, nodes: seq<Node>, n: nat)
    requires Below(nodes, parent) && AllTame(nodes)
    ensures QuietEach(RenderMediaEach(parent, nodes, n))
    decreases parent, 1, |nodes|
  {
    hide Quiet, Tame, TameNode, RenderMedia;
    if nodes != [] {
      LeavesTame(nodes[0], n);
      TameIsQuiet(RenderMedia(nodes[0], n).text);
      BlockQuiet(nodes[0], n);
      var r := if nodes[0].kind.Media? then RenderMedia(nodes[0], n) else RenderBlock(nodes[0], n);
      MediaEachQuiet(parent, nodes[1..], n + |r.refs|);
      QuietFirst(r, RenderMediaEach(parent, nodes[1..], n + |r.refs|));
    }
  }

  lemma {:induction false} InlineChildrenTame(node: Node, n: nat)
    requires TameNode(node)
    ensures Tame(RenderInlineChildren(node, n).text)
    decreases node, 3, 0
  {
    hide Tame, TameNode;
    TameChildren(node);
    InlineEachTame(node, Children(node), n);
    JoinTame(RenderInlineEach(node, Children(node), n));
  }

  lemma {:induction false} InlineEachTame(parent: Node, nodes: seq<Node>, n: nat)
    requires Below(nodes, parent) && AllTame(nodes)
    ensures TameEach(RenderInlineEach(parent, nodes, n))
    decreases parent, 1, |nodes|
  {
    hide Tame, TameNode;
    if nodes != [] {
      var r := RenderInline(nodes[0], n);
      InlineTame(nodes[0], n);
      InlineEachTame(parent, nodes[1..], n + |r.refs|);
      TameFirst(r, RenderInlineEach(parent, nodes[1..], n + |r.refs|));
    }
  }

  lemma {:induction false} InlineTame(node: Node, n: nat)
    requires TameNode(node)
    ensures Tame(RenderInline(node, n).text)
    decreases node, 4, 0
  {
    hide Tame, TameNode, RenderMedia, RenderInlineCard, RenderMention, RenderText, EscapeText, ReadableFallback;
    Separators();
    LeavesTame(node, n);
    TextTame(node, n);
    FallbackTame(node);
    InlineChildrenTame(node, n);
  }

  lemma {:induction false} LabelTame(node: Node, n: nat)
    requires TameNode(node)
    ensures Tame(RenderLabel(node, n).text)
    decreases node, 5, 0
  {
    hide Tame, TameNode;
    InlineChildrenTame(node, n);
    InlineTame(node, n);
  }

  // ---------- lists ----------

  lemma {:induction false} ListQuiet(node: Node, n: nat, ordered: bool, indentation: nat)
    requires TameNode(node)
    ensures Quiet(RenderList(node, n, ordered, indentation).text)
    decreases node, 4, 0
  {
    hide Quiet, TameNode;
    TameChildren(node);
    var number := NumberOf(node.attrs, "order", 1);
    ItemsQuiet(node, Children(node), n, ordered, number, indentation);
    Separators();
    JoinedQuiet(RenderItems(node, Children(node), n, ordered, number, indentation), "\n");
  }

  lemma {:induction false} ItemsQuiet(parent: Node, items: seq<Node>, n: nat, ordered: bool, number: int, indentation: nat)
    requires Below(items, parent) && AllTame(items)
    ensures QuietEach(RenderItems(parent, items, n, ordered, number, indentation))
    decreases parent, 1, |items|
  {
    hide Quiet, Tame, TameNode, ItemPrefix, LinePrefix, RenderItem;
    if items != [] {
      PrefixTame(ordered, number, indentation);
      ItemQuiet(items[0], n, ItemPrefix(ordered, number), indentation);
      var r := RenderItem(items[0], n, ItemPrefix(ordered, number), indentation);
      ItemsQuiet(parent, items[1..], n + |r.refs|, ordered, number + 1, indentation);
      QuietFirst(r, RenderItems(parent, items[1..], n + |r.refs|, ordered, number + 1, indentation));
    }
  }

  lemma {:induction false} ItemQuiet(item: Node, n: nat, prefix: string, indentation: nat)
    requires TameNode(item) && Tame(LinePrefix(prefix, indentation))
    ensures Quiet(RenderItem(item, n, prefix, indentation).text)
    decreases item, 4, 0
  {
    hide Quiet, Tame, TameNode, LinePrefix;
    TameChildren(item);
    ItemLinesQuiet(item, Children(item), n, LinePrefix(prefix, indentation), indentation + 2);
    Separators();
    JoinedQuiet(ItemLines(item, Children(item), n, LinePrefix(prefix, indentation), indentation + 2), "\n");
  }

  lemma {:induction false} ItemLinesQuiet(parent: Node, children: seq<Node>, n: nat, prefix: string, indentation: nat)
    requires Below(children, parent) && AllTame(children) && Tame(prefix)
    ensures QuietEach(ItemLines(parent, children, n, prefix, indentation))
    decreases parent, 2, |children|
  {
    hide Quiet, Tame, TameNode;
    TameIsQuiet(prefix);
    if children != [] {
      LabelTame(children[0], n);
      TameIsQuiet(RenderLabel(children[0], n).text);
      AroundQuiet(prefix, RenderLabel(children[0], n), "");
      var head := Around(prefix, RenderLabel(children[0], n), "");
      RestQuiet(parent, children[1..], n + |head.refs|, indentation);
      QuietFirst(head, RenderRest(parent, children[1..], n + |head.refs|, indentation));
    }
  }

  lemma {:induction false} RestQuiet(parent: Node, nodes: seq<Node>, n: nat, indentation: nat)
    requires Below(nodes, parent) && AllTame(nodes)
    ensures QuietEach(RenderRest(parent, nodes, n, indentation))
    decreases parent, 1, |nodes|
  {
    hide Quiet, TameNode;
    if nodes != [] {
      var r := RenderNested(nodes[0], n, indentation);
      NestedQuiet(nodes[0], n, indentation);
      RestQuiet(parent, nodes[1..], n + |r.refs|, indentation);
      QuietFirst(r, RenderRest(parent, nodes[1..], n + |r.refs|, indentation));
    }
  }

  lemma {:induction false} NestedQuiet(node: Node, n: nat, indentation: nat)
    requires TameNode(node)
    ensures Quiet(RenderNested(node, n, indentation).text)
    decreases node, 6, 0
  {
    hide Quiet, TameNode, Indented;
    match node.kind
    case BulletList => ListQuiet(node, n, false, indentation);
    case OrderedList => ListQuiet(node, n, true, indentation);
    case TaskList => TaskListQuiet(node, n, indentation);
    case _ =>
      BlockQuiet(node, n);
      IndentedQuiet(RenderBlock(node, n), indentation);
  }

  lemma {:induction false} TaskListQuiet(node: Node, n: nat, indentation: nat)
    requires TameNode(node)
    ensures Quiet(RenderTaskList(node, n, indentation).text)
    decreases node, 4, 0
  {
    hide Quiet, TameNode;
    TameChildren(node);
    TasksQuiet(node, Children(node), n, indentation);
    Separators();
    JoinedQuiet(RenderTasks(node, Children(node), n, indentation), "\n");
  }

  lemma {:induction false} TasksQuiet(parent: Node, items: seq<Node>, n: nat, indentation: nat)
    requires Below(items, parent) && AllTame(items)
    ensures QuietEach(RenderTasks(parent, items, n, indentation))
    decreases parent, 1, |items|
  {
    hide Quiet, TameNode, TaskPrefix, RenderTask;
    if items != [] {
      var r := RenderTask(items[0], n, indentation);
      TaskQuiet(items[0], n, indentation);
      TasksQuiet(parent, items[1..], n + |r.refs|, indentation);
      QuietFirst(r, RenderTasks(parent, items[1..], n + |r.refs|, indentation));
    }
  }

  lemma TaskPrefixTame(item: Node, indentation: nat)
    ensures Tame(TaskPrefix(item, indentation))
  {
  }

  lemma {:induction false} TaskQuiet(item: Node, n: nat, indentation: nat)
    requires TameNode(item)
    ensures Quiet(RenderTask(item, n, indentation).text)
    decreases item, 4, 0
  {
    hide Quiet, Tame, TameNode, TaskPrefix;
    TameChildren(item);
    TaskPrefixTame(item, indentation);
    LabelsTame(item, Children(item), n);
    var labels := Joined(RenderLabels(item, Children(item), n), "");
    JoinTame(RenderLabels(item, Children(item), n));
    TameIsQuiet(labels.text);
    AroundQuiet(TaskPrefix(item, indentation), labels, "");
  }

  lemma {:induction false} LabelsTame(parent: Node, nodes: seq<Node>, n: nat)
    requires Below(nodes, parent) && AllTame(nodes)
    ensures TameEach(RenderLabels(parent, nodes, n))
    decreases parent, 1, |nodes|
  {
    hide Tame, TameNode;
    if nodes != [] {
      var r := RenderLabel(nodes[0], n);
      LabelTame(nodes[0], n);
      LabelsTame(parent, nodes[1..], n + |r.refs|);
      TameFirst(r, RenderLabels(parent, nodes[1..], n + |r.refs|));
    }
  }

  // ---------- tables ----------

  lemma {:induction false} CellsQuiet(parent: Node, cells: seq<Node>, n: nat)
    requires Below(cells, parent) && AllTame(cells)
    ensures QuietEach(RenderCells(parent, cells, n))
    decreases parent, 1, |cells|
  {
    hide Quiet, TameNode;
    if cells != [] {
      var r := RenderCell(cells[0], n);
      CellQuiet(cells[0], n);
      CellsQuiet(parent, cells[1..], n + |r.refs|);
      QuietFirst(r, RenderCells(parent, cells[1..], n + |r.refs|));
    }
  }

  lemma {:induction false} CellQuiet(cell: Node, n: nat)
    requires TameNode(cell)
    ensures Quiet(RenderCell(cell, n).text)
    decreases cell, 3, 0
  {
    assert KeepsBrackets(CellChar);
    hide Quiet, TameNode, CellChar, KeepsBrackets;
    BlocksQuiet(cell, n);
    PerCharTame(RenderBlocks(cell, n).text, CellChar);
  }

  ghost predicate QuietRows(rows: seq<seq<Rendered>>) { forall i | 0 <= i < |rows| :: QuietEach(rows[i]) }

  lemma {:induction false} RowsQuiet(parent: Node, rows: seq<Node>, n: nat)
    requires Below(rows, parent) && AllTame(rows)
    ensures QuietRows(RenderRows(parent, rows, n))
    decreases parent, 1, |rows|
  {
    hide QuietEach, TameNode;
    if rows != [] {
      TameChildren(rows[0]);
      var cells := RenderCells(rows[0], Children(rows[0]), n);
      CellsQuiet(rows[0], Children(rows[0]), n);
      RowsQuiet(parent, rows[1..], n + |AllRefs(cells)|);
    }
  }

  lemma {:induction false} BlanksQuiet(k: nat)
    ensures QuietEach(Blanks(k))
  {
    if k > 0 {
      BlanksQuiet(k - 1);
    }
  }

  lemma RowLineQuiet(cells: seq<Rendered>, width: nat)
    requires QuietEach(cells)
    ensures Quiet(RowLine(cells, width).text)
  {
    var k := if width > |cells| then width - |cells| else 0;
    BlanksQuiet(k);
    Separators();
    assert QuietEach(cells + Blanks(k));
    hide Quiet, QuietEach, Tame;
    JoinedQuiet(cells + Blanks(k), " | ");
    AroundQuiet("| ", Joined(cells + Blanks(k), " | "), " |");
  }

  lemma {:induction false} RowLinesQuiet(rows: seq<seq<Rendered>>, width: nat)
    requires QuietRows(rows)
    ensures QuietEach(RowLines(rows, width))
  {
    hide Quiet, RowLine;
    if rows != [] {
      RowLineQuiet(rows[0], width);
      RowLinesQuiet(rows[1..], width);
      QuietFirst(RowLine(rows[0], width), RowLines(rows[1..], width));
    }
  }

  lemma {:induction false} RulesQuiet(k: nat)
    ensures Quiet("| " + Join(Rules(k), " | ") + " |")
  {
    RulesAreDashes(k);
    Separators();
    JoinQuiet(Rules(k), " | ");
    TameConcat("| ", Join(Rules(k), " | "));
    QuietParted("| " + Join(Rules(k), " | "), " |", "");
  }

  lemma {:induction false} RulesAreDashes(k: nat)
    ensures QuietTexts(Rules(k))
  {
    if k > 0 {
      RulesAreDashes(k - 1);
    }
  }

  lemma {:induction false} TableQuiet(node: Node, n: nat)
    requires TameNode(node)
    ensures Quiet(RenderTable(node, n).text)
    decreases node, 4, 0
  {
    hide Quiet, TameNode, RowLine, RowLines, RuleLine, Width, QuietRows;
    TameChildren(node);
    Separators();
    var rows := RenderRows(node, Children(node), n);
    RowsQuiet(node, Children(node), n);
    if rows == [] {
      TameIsQuiet("");
    } else {
      TableLinesQuiet(rows, Width(rows));
      JoinedQuiet([RowLine(rows[0], Width(rows))] + ([RuleLine(Width(rows))] + RowLines(rows[1..], Width(rows))), "\n");
    }
  }

  lemma TableLinesQuiet(rows: seq<seq<Rendered>>, width: nat)
    requires rows != [] && QuietRows(rows)
    ensures QuietEach([RowLine(rows[0], width)] + ([RuleLine(width)] + RowLines(rows[1..], width)))
  {
    hide Quiet, RowLine, RowLines, QuietEach;
    RulesQuiet(width);
    RowLineQuiet(rows[0], width);
    RowLinesQuiet(rows[1..], width);
    QuietFirst(RuleLine(width), RowLines(rows[1..], width));
    QuietFirst(RowLine(rows[0], width), [RuleLine(width)] + RowLines(rows[1..], width));
  }

  /** If behind every opening bracket of every string of the document, in that string, stands
      something other than an exclamation mark, the Markdown has no reserved marker anywhere. */
  lemma {:induction false} ConvertedHasNoMarker(input: Option<Node>)
    requires input.Some? ==> TameNode(input.value)
    ensures !HasMarker(Convert(input).text)
  {
    hide Quiet, TameNode, HasMarker, RenderBlocks;
    if input.Some? && input.value.kind.Doc? {
      BlocksQuiet(input.value, 0);
    } else {
      TameIsQuiet("");
    }
    QuietHasNoMarker(Convert(input).text);
  }
}
