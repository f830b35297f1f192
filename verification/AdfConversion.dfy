/** What holds of every converted document whose strings contain neither delimiter: its
    references appear in the text once each and in the order of their recording, and rewriting
    them is one substitution that leaves no placeholder behind. */
module AdfConversion {
  import opened Wrappers
  import opened AdfText
  import opened AdfReferences
  import opened Adf

  // ---------- documents without delimiters ----------

  ghost predicate PlainAttrs(attrs: map<string, Attr>) {
    forall key | key in attrs && attrs[key].TextAttr? :: Plain(attrs[key].text)
  }

  ghost predicate Clean(node: Node)
    decreases node
  {
    && (node.text.Some? ==> Plain(node.text.value))
    && PlainAttrs(node.attrs)
    && (forall i | 0 <= i < |node.marks| :: PlainAttrs(node.marks[i].attrs))
    && forall i | 0 <= i < |Children(node)| :: Clean(Children(node)[i])
  }

  ghost predicate AllClean(nodes: seq<Node>) { forall i | 0 <= i < |nodes| :: Clean(nodes[i]) }

  lemma CleanChildren(node: Node)
    requires Clean(node)
    ensures AllClean(Children(node))
  {
  }

  // ---------- good pieces ----------

  function Names(refs: seq<Reference>): (names: seq<string>)
    ensures |names| == |refs|
  {
    seq(|refs|, i requires 0 <= i < |refs| => refs[i].placeholder)
  }

  ghost predicate Recorded(ref: Reference, i: nat) {
    && (exists marks :: ref.placeholder == Placeholder(i, marks))
    && PlainReference(ref)
  }

  ghost predicate Numbered(refs: seq<Reference>, n: nat) {
    forall k: nat | k < |refs| :: Recorded(refs[k], n + k)
  }

  /** The text carries exactly the references of the piece, in order, numbered from n. */
  ghost predicate Good(r: Rendered, n: nat) { Carries(r.text, Names(r.refs)) && Numbered(r.refs, n) }

  ghost predicate GoodEach(rs: seq<Rendered>, n: nat)
    decreases |rs|
  {
    rs == [] || (Good(rs[0], n) && GoodEach(rs[1..], n + |rs[0].refs|))
  }

  lemma PlainGood(text: string, n: nat)
    requires Plain(text)
    ensures Good(Plainly(text), n)
  {
    PlainCarriesNothing(text);
    assert Names([]) == [];
  }

  lemma ReferenceGood(n: nat, kind: Kind, sourceId: string, url: Option<string>, fallback: string, marks: seq<TextMark>)
    requires Plain(fallback) && (url.Some? ==> Plain(url.value))
    ensures Good(AddReference(n, kind, sourceId, url, fallback, marks), n)
  {
    var r := AddReference(n, kind, sourceId, url, fallback, marks);
    PlaceholderIsMark(n, marks);
    MarkCarriesItself(Placeholder(n, marks));
    assert Names(r.refs) == [Placeholder(n, marks)];
    hide Plain;
    assert Recorded(r.refs[0], n);
  }

  lemma NumberedConcat(a: seq<Reference>, b: seq<Reference>, n: nat)
    requires Numbered(a, n) && Numbered(b, n + |a|)
    ensures Numbered(a + b, n)
  {
    hide Recorded;
    forall k: nat | k < |a + b| ensures Recorded((a + b)[k], n + k) {
      if k >= |a| {
        assert Recorded(b[k - |a|], n + |a| + (k - |a|));
      }
    }
  }

  function Append(r: Rendered, s: Rendered): Rendered { Rendered(r.text + s.text, r.refs + s.refs) }

  lemma GoodConcat(r: Rendered, s: Rendered, n: nat)
    requires Good(r, n) && Good(s, n + |r.refs|)
    ensures Good(Append(r, s), n)
  {
    hide Carries, Numbered, Names;
    CarriesConcat(r.text, s.text, Names(r.refs), Names(s.refs));
    NumberedConcat(r.refs, s.refs, n);
    NamesConcat(r.refs, s.refs);
  }

  lemma NamesConcat(a: seq<Reference>, b: seq<Reference>)
    ensures Names(a + b) == Names(a) + Names(b)
  {
  }

  lemma AroundGood(before: string, r: Rendered, after: string, n: nat)
    requires Plain(before) && Plain(after) && Good(r, n)
    ensures Good(Around(before, r, after), n)
  {
    PlainGood(before, n);
    PlainGood(after, n + |r.refs|);
    hide Good, Plain, Append, Around;
    GoodConcat(Plainly(before), r, n);
    NothingAround(before, r, after);
    GoodConcat(Append(Plainly(before), r), Plainly(after), n);
  }

  lemma NothingAround(before: string, r: Rendered, after: string)
    ensures |Append(Plainly(before), r).refs| == |r.refs|
    ensures Append(Append(Plainly(before), r), Plainly(after)) == Around(before, r, after)
  {
    assert [] + r.refs == r.refs && r.refs + [] == r.refs;
  }

  lemma GoodSeparated(r: Rendered, separator: string, rest: Rendered, n: nat)
    requires Plain(separator) && Good(r, n) && Good(rest, n + |r.refs|)
    ensures Good(Rendered(r.text + separator + rest.text, r.refs + rest.refs), n)
  {
    EmptyPlain();
    hide Good, Plain;
    AroundGood("", r, separator, n);
    GoodConcat(Around("", r, separator), rest, n);
    SeparatedIs(r, separator, rest);
  }

  lemma SeparatedIs(r: Rendered, separator: string, rest: Rendered)
    ensures Append(Around("", r, separator), rest) == Rendered(r.text + separator + rest.text, r.refs + rest.refs)
    ensures Around("", r, separator).refs == r.refs
  {
    assert "" + r.text + separator == r.text + separator;
  }

  lemma EmptyPlain()
    ensures Plain("")
  {
  }

  lemma JoinedFirst(rs: seq<Rendered>, separator: string)
    requires rs != []
    ensures var rest := Joined(rs[1..], separator);
            Joined(rs, separator)
            == if |rs| == 1 then rs[0]
               else Rendered(rs[0].text + separator + rest.text, rs[0].refs + rest.refs)
  {
    assert Texts(rs) == [rs[0].text] + Texts(rs[1..]) && ([rs[0].text] + Texts(rs[1..]))[1..] == Texts(rs[1..]);
    if |rs| == 1 {
      assert rs[1..] == [] && Texts([]) == [] && AllRefs([]) == [];
      assert rs[0].refs + [] == rs[0].refs && |Texts(rs)| == 1;
    } else {
      assert |Texts(rs[1..])| > 0;
    }
  }

  lemma JoinedFirstNonEmpty(rs: seq<Rendered>, separator: string)
    requires rs != []
    ensures var rest := JoinedNonEmpty(rs[1..], separator);
            JoinedNonEmpty(rs, separator)
            == Rendered(if rs[0].text == "" then rest.text
                        else if NonEmpty(Texts(rs[1..])) == [] then rs[0].text
                        else rs[0].text + separator + rest.text,
                        rs[0].refs + rest.refs)
    ensures NonEmpty(Texts(rs[1..])) == [] ==> JoinedNonEmpty(rs[1..], separator).text == ""
  {
    var texts := NonEmpty(Texts(rs[1..]));
    assert Texts(rs)[1..] == Texts(rs[1..]) && Texts(rs)[0] == rs[0].text;
    assert [] + texts == texts && ([rs[0].text] + texts)[1..] == texts;
  }

  lemma {:induction false} JoinGood(rs: seq<Rendered>, separator: string, n: nat)
    requires GoodEach(rs, n) && Plain(separator)
    ensures Good(Joined(rs, separator), n)
    decreases |rs|
  {
    if rs == [] {
      PlainGood("", n);
    } else {
      JoinedFirst(rs, separator);
      hide Plain, Good, Joined;
      JoinGood(rs[1..], separator, n + |rs[0].refs|);
      if |rs| > 1 {
        GoodSeparated(rs[0], separator, Joined(rs[1..], separator), n);
      }
    }
  }

  lemma EmptyTextHasNoReferences(r: Rendered, n: nat)
    requires Good(r, n) && r.text == ""
    ensures r.refs == []
  {
    assert Names(r.refs) == [];
  }

  lemma {:induction false} JoinNonEmptyGood(rs: seq<Rendered>, separator: string, n: nat)
    requires GoodEach(rs, n) && Plain(separator)
    ensures Good(JoinedNonEmpty(rs, separator), n)
    decreases |rs|
  {
    if rs == [] {
      PlainGood("", n);
    } else {
      var rest := JoinedNonEmpty(rs[1..], separator);
      JoinedFirstNonEmpty(rs, separator);
      hide Plain, Good, JoinedNonEmpty, NonEmpty, Texts, AllRefs;
      JoinNonEmptyGood(rs[1..], separator, n + |rs[0].refs|);
      NonEmptyStepGood(rs[0], rest, separator, NonEmpty(Texts(rs[1..])) == [], n);
    }
  }

  lemma NonEmptyStepGood(first: Rendered, rest: Rendered, separator: string, last: bool, n: nat)
    requires Good(first, n) && Good(rest, n + |first.refs|) && Plain(separator) && (last ==> rest.text == "")
    ensures Good(Rendered(if first.text == "" then rest.text
                          else if last then first.text
                          else first.text + separator + rest.text,
                          first.refs + rest.refs), n)
  {
    EmptyConcat(rest.refs);
    EmptyConcat(first.refs);
    if first.text == "" {
      EmptyTextHasNoReferences(first, n);
    } else if last {
      EmptyTextHasNoReferences(rest, n + |first.refs|);
    } else {
      hide Plain, Good;
      GoodSeparated(first, separator, rest, n);
    }
  }

  lemma EmptyConcat<T>(s: seq<T>)
    ensures [] + s == s && s + [] == s
  {
  }

  lemma NoneGood(n: nat)
    ensures GoodEach([], n)
  {
  }

  lemma GoodFirst(first: Rendered, rest: seq<Rendered>, n: nat)
    requires Good(first, n) && GoodEach(rest, n + |first.refs|)
    ensures GoodEach([first] + rest, n)
  {
    hide Good;
    assert ([first] + rest)[1..] == rest;
  }

  /** A per-character rewrite that changes nothing a placeholder contains. */
  ghost predicate SparesMarks(f: char -> string) {
    && (forall c | c != '\n' && c != '|' :: f(c) == [c])
    && Plain(f('\n')) && Plain(f('|'))
  }

  lemma {:induction false} MarkIsSpared(m: string, f: char -> string)
    requires SparesMarks(f) && forall k | 0 <= k < |m| :: m[k] != '\n' && m[k] != '|'
    ensures PerChar(m, f) == m
  {
    if m != "" {
      MarkIsSpared(m[1..], f);
      assert m == [m[0]] + m[1..];
    }
  }

  lemma {:induction false} PerCharCarries(s: string, marks: seq<string>, f: char -> string)
    requires Carries(s, marks) && SparesMarks(f)
    ensures Carries(PerChar(s, f), marks)
    decreases |s|
  {
    if s == "" {
    } else if s[0] == OPEN {
      var m := marks[0];
      assert s == m + s[|m|..];
      PerCharCarries(s[|m|..], marks[1..], f);
      PerCharConcat(m, s[|m|..], f);
      MarkIsSpared(m, f);
      MarkCarriesItself(m);
      CarriesConcat(m, PerChar(s[|m|..], f), [m], marks[1..]);
      assert [m] + marks[1..] == marks;
    } else {
      PerCharCarries(s[1..], marks, f);
      PlainCarriesNothing(f(s[0]));
      CarriesConcat(f(s[0]), PerChar(s[1..], f), [], marks);
      assert [] + marks == marks;
    }
  }

  lemma PerCharGood(r: Rendered, f: char -> string, n: nat)
    requires Good(r, n) && SparesMarks(f)
    ensures Good(r.(text := PerChar(r.text, f)), n)
  {
    PerCharCarries(r.text, Names(r.refs), f);
  }

  lemma IndentedGood(r: Rendered, amount: nat, n: nat)
    requires Good(r, n)
    ensures Good(Indented(r, amount), n)
  {
    PerCharGood(r, IndentChar(amount), n);
    AroundGood(Repeat(' ', amount), r.(text := PerChar(r.text, IndentChar(amount))), "", n);
    assert Repeat(' ', amount) + PerChar(r.text, IndentChar(amount)) + "" == Indented(r, amount).text;
  }

  lemma {:induction false} TrimStartCarries(s: string, marks: seq<string>)
    requires Carries(s, marks)
    ensures Carries(TrimStart(s), marks)
    decreases |s|
  {
    if s != "" && IsSpace(s[0]) {
      TrimStartCarries(s[1..], marks);
    }
  }

  lemma {:induction false} DropLastCarries(s: string, marks: seq<string>)
    requires s != "" && Carries(s, marks) && s[|s| - 1] != CLOSE
    ensures Carries(s[..|s| - 1], marks)
    decreases |s|
  {
    var t := s[..|s| - 1];
    if s[0] == OPEN {
      var m := marks[0];
      var rest := s[|m|..];
      assert s == m + rest;
      assert rest != "" by {
        assert rest == "" ==> s == m;
      }
      DropLastCarries(rest, marks[1..]);
      assert t == m + rest[..|rest| - 1];
      MarkCarriesItself(m);
      CarriesConcat(m, rest[..|rest| - 1], [m], marks[1..]);
      assert [m] + marks[1..] == marks;
    } else if |s| > 1 {
      DropLastCarries(s[1..], marks);
      assert t[1..] == s[1..][..|s| - 2];
    }
  }

  lemma {:induction false} TrimEndCarries(s: string, marks: seq<string>)
    requires Carries(s, marks)
    ensures Carries(TrimEnd(s), marks)
    decreases |s|
  {
    if s != "" && IsSpace(s[|s| - 1]) {
      DropLastCarries(s, marks);
      TrimEndCarries(s[..|s| - 1], marks);
    }
  }

  lemma TrimmedGood(r: Rendered, n: nat)
    requires Good(r, n)
    ensures Good(Trimmed(r), n)
  {
    TrimStartCarries(r.text, Names(r.refs));
    TrimEndCarries(TrimStart(r.text), Names(r.refs));
  }

  // ---------- plain leaves ----------

  lemma {:induction false} SafeTextPlain(s: string)
    requires Plain(s)
    ensures Plain(SafeSourceText(s))
  {
    if s != "" {
      SafeTextPlain(s[1..]);
    }
  }

  lemma StringPlain(attrs: map<string, Attr>, key: string)
    requires PlainAttrs(attrs)
    ensures StringOf(attrs, key).Some? ==> Plain(StringOf(attrs, key).value)
  {
  }

  lemma FallbackPlain(node: Node)
    requires Clean(node)
    ensures Plain(ReadableFallback(node))
  {
    assert forall key :: StringOf(node.attrs, key).Some? ==> Plain(StringOf(node.attrs, key).value);
    hide StringOf, Plain, PlainAttrs, SafeSourceText;
    var text := OrText(OrElse(node.text, OrElse(StringOf(node.attrs, "text"), OrElse(StringOf(node.attrs, "alt"),
             OrElse(StringOf(node.attrs, "label"), OrElse(StringOf(node.attrs, "shortName"),
             OrElse(StringOf(node.attrs, "displayName"), OrElse(StringOf(node.attrs, "name"),
             OrElse(StringOf(node.attrs, "title"), StringOf(node.attrs, "url"))))))))), "");
    assert Plain(text) by { EmptyPlain(); }
    SafeTextPlain(text);
    assert ReadableFallback(node) == SafeSourceText(text);
  }

  lemma {:induction false} IssueIdPlain(url: string)
    requires Plain(url)
    ensures JiraIssueId(url).Some? ==> Plain(JiraIssueId(url).value)
  {
    if url != "" {
      IssueIdPlain(url[1..]);
      if |url| >= 8 {
        UntilDelimiterPlain(url[8..]);
      }
    }
  }

  lemma {:induction false} UntilDelimiterPlain(s: string)
    requires Plain(s)
    ensures Plain(UntilDelimiter(s))
  {
    if s != "" {
      UntilDelimiterPlain(s[1..]);
    }
  }

  lemma MediaGood(node: Node, n: nat)
    requires Clean(node)
    ensures Good(RenderMedia(node, n), n)
  {
    var id := StringOf(node.attrs, "id");
    FallbackPlain(node);
    StringPlain(node.attrs, "url");
    if id.None? {
      PlainGood(ReadableFallback(node), n);
    } else {
      var text := OrText(OrElse(StringOf(node.attrs, "alt"), StringOf(node.attrs, "filename")), id.value);
      SafeTextPlain(text);
      ReferenceGood(n, Attachment, id.value, StringOf(node.attrs, "url"), SafeSourceText(text), []);
    }
  }

  lemma InlineCardGood(node: Node, n: nat)
    requires Clean(node)
    ensures Good(RenderInlineCard(node, n), n)
  {
    var url := StringOf(node.attrs, "url");
    if url.None? || JiraIssueId(url.value).None? {
      PlainGood(OrText(url, ""), n);
    } else {
      IssueIdPlain(url.value);
      ReferenceGood(n, Issue, JiraIssueId(url.value).value, url, JiraIssueId(url.value).value, []);
    }
  }

  lemma MentionGood(node: Node, n: nat)
    requires Clean(node)
    ensures Good(RenderMention(node, n), n)
  {
    var id := OrElse(StringOf(node.attrs, "id"), StringOf(node.attrs, "accountId"));
    if id.None? {
      FallbackPlain(node);
      PlainGood(ReadableFallback(node), n);
    } else {
      var text := OrText(OrElse(StringOf(node.attrs, "text"), StringOf(node.attrs, "displayName")), "@" + id.value);
      SafeTextPlain(text);
      ReferenceGood(n, User, id.value, None, SafeSourceText(text), []);
    }
  }

  lemma {:induction false} LinksPlain(marks: seq<NodeMark>)
    requires forall i | 0 <= i < |marks| :: PlainAttrs(marks[i].attrs)
    ensures JiraLink(marks).Some? ==> Plain(JiraLink(marks).value)
    ensures FirstLink(marks).Some? ==> Plain(FirstLink(marks).value)
  {
    if marks != [] {
      LinksPlain(marks[1..]);
      StringPlain(marks[0].attrs, "href");
    }
  }

  lemma TextGood(node: Node, n: nat)
    requires Clean(node)
    ensures Good(RenderText(node, n), n)
  {
    var text := SafeSourceText(OrText(node.text, ""));
    var jira, href, marks := JiraLink(node.marks), FirstLink(node.marks), SupportedMarks(node.marks);
    SafeTextPlain(OrText(node.text, ""));
    LinksPlain(node.marks);
    hide Plain, Good, Clean, SafeSourceText, MarkedText, JiraLink, FirstLink, SupportedMarks;
    if jira.Some? {
      ReferenceGood(n, Issue, OrText(JiraIssueId(jira.value), ""), jira, text, marks);
    } else if href.Some? {
      LinkTextPlain(text, marks, href.value);
      PlainGood("[" + MarkedText(text, marks) + "](" + EscapeUrl(href.value) + ")", n);
    } else {
      MarkedTextPlain(text, marks);
      PlainGood(MarkedText(text, marks), n);
    }
  }

  lemma LinkTextPlain(text: string, marks: seq<TextMark>, href: string)
    requires Plain(text) && Plain(href)
    ensures Plain("[" + MarkedText(text, marks) + "](" + EscapeUrl(href) + ")")
  {
    MarkedTextPlain(text, marks);
    PerCharPlain(href, EscapeUrlChar);
    hide MarkedText, EscapeUrlChar;
  }

  lemma {:induction false} CodeTextPlain(children: seq<Node>)
    requires AllClean(children)
    ensures Plain(CodeText(children))
  {
    if children != [] {
      CodeTextPlain(children[1..]);
      assert Clean(children[0]);
      SafeTextPlain(OrText(children[0].text, ""));
    }
  }

  lemma CodeBlockPlain(language: string, text: string)
    requires Plain(language) && Plain(text)
    ensures Plain(CodeBlock(language, text))
  {
    assert Plain(Fence(text)) && Plain(WithoutLastNewline(text)) && Plain("\n");
    hide Fence, WithoutLastNewline;
  }

  lemma CodeBlockGood(node: Node, n: nat)
    requires Clean(node)
    ensures Good(RenderCodeBlock(node), n)
  {
    CodeTextPlain(Children(node));
    StringPlain(node.attrs, "language");
    EmptyPlain();
    hide Plain, Good, Clean, CodeText, CodeBlock, StringOf;
    var language := OrText(StringOf(node.attrs, "language"), "");
    CodeBlockPlain(language, CodeText(Children(node)));
    PlainGood(CodeBlock(language, CodeText(Children(node))), n);
  }

  // ---------- blocks, lines, lists and tables ----------

  lemma {:induction false} BlocksGood(node: Node, n: nat)
    requires Clean(node)
    ensures Good(RenderBlocks(node, n), n)
    decreases node, 2, 0
  {
    hide Good, Plain;
    BlockEachGood(node, Children(node), n);
    PlainText("\n\n");
    JoinNonEmptyGood(RenderBlockEach(node, Children(node), n), "\n\n", n);
    TrimmedGood(JoinedNonEmpty(RenderBlockEach(node, Children(node), n), "\n\n"), n);
  }

  /** Texts written here contain no delimiter. */
  predicate IsAscii(s: string) { forall i | 0 <= i < |s| :: s[i] < '\U{80}' }

  lemma PlainText(s: string)
    requires IsAscii(s)
    ensures Plain(s)
  {
  }

  lemma {:induction false} BlockEachGood(parent: Node, nodes: seq<Node>, n: nat)
    requires Below(nodes, parent) && AllClean(nodes)
    ensures GoodEach(RenderBlockEach(parent, nodes, n), n)
    decreases parent, 1, |nodes|
  {
    hide Good, GoodEach, Plain, Clean;
    if nodes == [] {
      NoneGood(n);
    } else {
      var r := RenderBlock(nodes[0], n);
      BlockGood(nodes[0], n);
      BlockEachGood(parent, nodes[1..], n + |r.refs|);
      GoodFirst(r, RenderBlockEach(parent, nodes[1..], n + |r.refs|), n);
    }
  }

  lemma {:induction false} BlockGood(node: Node, n: nat)
    requires Clean(node)
    ensures Good(RenderBlock(node, n), n)
    decreases node, 5, 0
  {
    PlainText("---");
    hide Good, Clean, Plain;
    match node.kind
    case Paragraph => InlineChildrenGood(node, n);
    case Heading =>
      InlineChildrenGood(node, n);
      HeadingGood(Level(NumberOf(node.attrs, "level", 1)), RenderInlineChildren(node, n), n);
    case BulletList => ListGood(node, n, false, 0);
    case OrderedList => ListGood(node, n, true, 0);
    case TaskList => TaskListGood(node, n, 0);
    case Table => TableGood(node, n);
    case MediaSingle => MediaContainerGood(node, n);
    case MediaGroup => MediaContainerGood(node, n);
    case Media => MediaGood(node, n);
    case Rule => PlainGood("---", n);
    case CodeBlockNode => CodeBlockGood(node, n);
    case _ => OtherBlockGood(node, n);
  }

  lemma HeadingGood(level: nat, r: Rendered, n: nat)
    requires Good(r, n)
    ensures Good(Around(Repeat('#', level) + " ", r, ""), n)
  {
    AroundGood(Repeat('#', level) + " ", r, "", n);
  }

  lemma {:induction false} MediaContainerGood(node: Node, n: nat)
    requires Clean(node)
    ensures Good(JoinedNonEmpty(RenderMediaEach(node, Children(node), n), "\n"), n)
    decreases node, 4, 0
  {
    CleanChildren(node);
    hide Good, Clean;
    MediaEachGood(node, Children(node), n);
    JoinNonEmptyGood(RenderMediaEach(node, Children(node), n), "\n", n);
  }

  lemma {:induction false} OtherBlockGood(node: Node, n: nat)
    requires Clean(node)
    ensures node.content.Present? ==> Good(RenderBlocks(node, n), n)
    ensures Good(Plainly(EscapeText(ReadableFallback(node))), n)
    decreases node, 4, 0
  {
    BlocksGood(node, n);
    EscapedFallbackGood(node, n);
  }

  lemma EscapedFallbackGood(node: Node, n: nat)
    requires Clean(node)
    ensures Good(Plainly(EscapeText(ReadableFallback(node))), n)
  {
    FallbackPlain(node);
    EscapeTextIsOnePass(ReadableFallback(node));
    PerCharPlain(ReadableFallback(node), EscapeChar);
    PlainGood(EscapeText(ReadableFallback(node)), n);
  }

  lemma {:induction false} InlineChildrenGood(node: Node, n: nat)
    requires Clean(node)
    ensures Good(RenderInlineChildren(node, n), n)
    decreases node, 3, 0
  {
    CleanChildren(node);
    hide Good, Clean;
    InlineEachGood(node, Children(node), n);
    JoinGood(RenderInlineEach(node, Children(node), n), "", n);
  }

  lemma {:induction false} InlineEachGood(parent: Node, nodes: seq<Node>, n: nat)
    requires Below(nodes, parent) && AllClean(nodes)
    ensures GoodEach(RenderInlineEach(parent, nodes, n), n)
    decreases parent, 1, |nodes|
  {
    hide Good, GoodEach, Plain, Clean;
    if nodes == [] {
      NoneGood(n);
    } else {
      var r := RenderInline(nodes[0], n);
      InlineGood(nodes[0], n);
      InlineEachGood(parent, nodes[1..], n + |r.refs|);
      GoodFirst(r, RenderInlineEach(parent, nodes[1..], n + |r.refs|), n);
    }
  }

  lemma {:induction false} InlineGood(node: Node, n: nat)
    requires Clean(node)
    ensures Good(RenderInline(node, n), n)
    decreases node, 4, 0
  {
    hide Good, Clean;
    match node.kind
    case HardBreak => PlainGood("  \n", n);
    case InlineCard => InlineCardGood(node, n);
    case Media => MediaGood(node, n);
    case Mention => MentionGood(node, n);
    case TextNode => TextGood(node, n);
    case _ =>
      InlineChildrenGood(node, n);
      EscapedFallbackGood(node, n);
  }

  lemma {:induction false} MediaEachGood(parent: Node, nodes: seq<Node>, n: nat)
    requires Below(nodes, parent) && AllClean(nodes)
    ensures GoodEach(RenderMediaEach(parent, nodes, n), n)
    decreases parent, 1, |nodes|
  {
    hide Good, GoodEach, Plain, Clean;
    if nodes == [] {
      NoneGood(n);
    } else {
      MediaGood(nodes[0], n);
      BlockGood(nodes[0], n);
      var r := if nodes[0].kind.Media? then RenderMedia(nodes[0], n) else RenderBlock(nodes[0], n);
      MediaEachGood(parent, nodes[1..], n + |r.refs|);
      GoodFirst(r, RenderMediaEach(parent, nodes[1..], n + |r.refs|), n);
    }
  }

  lemma {:induction false} ListGood(node: Node, n: nat, ordered: bool, indentation: nat)
    requires Clean(node)
    ensures Good(RenderList(node, n, ordered, indentation), n)
    decreases node, 4, 0
  {
    CleanChildren(node);
    hide Good, Clean;
    var number := NumberOf(node.attrs, "order", 1);
    ItemsGood(node, Children(node), n, ordered, number, indentation);
    JoinGood(RenderItems(node, Children(node), n, ordered, number, indentation), "\n", n);
  }

  lemma PrefixPlain(ordered: bool, number: int)
    ensures Plain(ItemPrefix(ordered, number))
  {
    DigitsAreDigits(if number < 0 then -number else number);
  }

  lemma LinePrefixPlain(prefix: string, indentation: nat)
    requires Plain(prefix)
    ensures Plain(LinePrefix(prefix, indentation))
  {
  }

  lemma TaskPrefixPlain(item: Node, indentation: nat)
    ensures Plain(TaskPrefix(item, indentation))
  {
  }

  lemma {:induction false} ItemsGood(parent: Node, items: seq<Node>, n: nat, ordered: bool, number: int, indentation: nat)
    requires Below(items, parent) && AllClean(items)
    ensures GoodEach(RenderItems(parent, items, n, ordered, number, indentation), n)
    decreases parent, 1, |items|
  {
    hide Good, GoodEach, Plain, Clean;
    if items == [] {
      NoneGood(n);
    } else {
      PrefixPlain(ordered, number);
      hide ItemPrefix;
      ItemGood(items[0], n, ItemPrefix(ordered, number), indentation);
      var r := RenderItem(items[0], n, ItemPrefix(ordered, number), indentation);
      ItemsGood(parent, items[1..], n + |r.refs|, ordered, number + 1, indentation);
      GoodFirst(r, RenderItems(parent, items[1..], n + |r.refs|, ordered, number + 1, indentation), n);
    }
  }

  lemma {:induction false} LabelGood(node: Node, n: nat)
    requires Clean(node)
    ensures Good(RenderLabel(node, n), n)
    decreases node, 5, 0
  {
    InlineChildrenGood(node, n);
    InlineGood(node, n);
  }

  lemma {:induction false} ItemGood(item: Node, n: nat, prefix: string, indentation: nat)
    requires Clean(item) && Plain(prefix)
    ensures Good(RenderItem(item, n, prefix, indentation), n)
    decreases item, 4, 0
  {
    CleanChildren(item);
    LinePrefixPlain(prefix, indentation);
    PlainText("\n");
    hide Good, Plain, Clean, LinePrefix;
    ItemLinesGood(item, Children(item), n, LinePrefix(prefix, indentation), indentation + 2);
    JoinNonEmptyGood(ItemLines(item, Children(item), n, LinePrefix(prefix, indentation), indentation + 2), "\n", n);
  }

  lemma {:induction false} ItemLinesGood(parent: Node, children: seq<Node>, n: nat, prefix: string, indentation: nat)
    requires Below(children, parent) && AllClean(children) && Plain(prefix)
    ensures GoodEach(ItemLines(parent, children, n, prefix, indentation), n)
    decreases parent, 2, |children|
  {
    EmptyPlain();
    hide Good, Plain, Clean;
    if children == [] {
      PlainGood(prefix, n);
    } else {
      LabelGood(children[0], n);
      AroundGood(prefix, RenderLabel(children[0], n), "", n);
      var head := Around(prefix, RenderLabel(children[0], n), "");
      RestGood(parent, children[1..], n + |head.refs|, indentation);
      GoodFirst(head, RenderRest(parent, children[1..], n + |head.refs|, indentation), n);
    }
  }

  lemma {:induction false} RestGood(parent: Node, nodes: seq<Node>, n: nat, indentation: nat)
    requires Below(nodes, parent) && AllClean(nodes)
    ensures GoodEach(RenderRest(parent, nodes, n, indentation), n)
    decreases parent, 1, |nodes|
  {
    hide Good, GoodEach, Plain, Clean;
    if nodes == [] {
      NoneGood(n);
    } else {
      var r := RenderNested(nodes[0], n, indentation);
      NestedGood(nodes[0], n, indentation);
      RestGood(parent, nodes[1..], n + |r.refs|, indentation);
      GoodFirst(r, RenderRest(parent, nodes[1..], n + |r.refs|, indentation), n);
    }
  }

  lemma {:induction false} NestedGood(node: Node, n: nat, indentation: nat)
    requires Clean(node)
    ensures Good(RenderNested(node, n, indentation), n)
    decreases node, 6, 0
  {
    hide Good, Clean;
    match node.kind
    case BulletList => ListGood(node, n, false, indentation);
    case OrderedList => ListGood(node, n, true, indentation);
    case TaskList => TaskListGood(node, n, indentation);
    case _ =>
      BlockGood(node, n);
      IndentedGood(RenderBlock(node, n), indentation, n);
  }

  lemma {:induction false} TaskListGood(node: Node, n: nat, indentation: nat)
    requires Clean(node)
    ensures Good(RenderTaskList(node, n, indentation), n)
    decreases node, 4, 0
  {
    CleanChildren(node);
    hide Good, Clean;
    TasksGood(node, Children(node), n, indentation);
    JoinGood(RenderTasks(node, Children(node), n, indentation), "\n", n);
  }

  lemma {:induction false} TasksGood(parent: Node, items: seq<Node>, n: nat, indentation: nat)
    requires Below(items, parent) && AllClean(items)
    ensures GoodEach(RenderTasks(parent, items, n, indentation), n)
    decreases parent, 1, |items|
  {
    hide Good, GoodEach, Plain, Clean;
    if items == [] {
      NoneGood(n);
    } else {
      var r := RenderTask(items[0], n, indentation);
      TaskGood(items[0], n, indentation);
      TasksGood(parent, items[1..], n + |r.refs|, indentation);
      GoodFirst(r, RenderTasks(parent, items[1..], n + |r.refs|, indentation), n);
    }
  }

  lemma {:induction false} TaskGood(item: Node, n: nat, indentation: nat)
    requires Clean(item)
    ensures Good(RenderTask(item, n, indentation), n)
    decreases item, 4, 0
  {
    TaskPrefixPlain(item, indentation);
    PlainText("");
    CleanChildren(item);
    hide Good, Plain, Clean, TaskPrefix;
    LabelsGood(item, Children(item), n);
    var labels := RenderLabels(item, Children(item), n);
    JoinGood(labels, "", n);
    AroundGood(TaskPrefix(item, indentation), Joined(labels, ""), "", n);
  }

  lemma {:induction false} LabelsGood(parent: Node, nodes: seq<Node>, n: nat)
    requires Below(nodes, parent) && AllClean(nodes)
    ensures GoodEach(RenderLabels(parent, nodes, n), n)
    decreases parent, 1, |nodes|
  {
    hide Good, GoodEach, Plain, Clean;
    if nodes == [] {
      NoneGood(n);
    } else {
      var r := RenderLabel(nodes[0], n);
      LabelGood(nodes[0], n);
      LabelsGood(parent, nodes[1..], n + |r.refs|);
      GoodFirst(r, RenderLabels(parent, nodes[1..], n + |r.refs|), n);
    }
  }

  lemma {:induction false} CellsGood(parent: Node, cells: seq<Node>, n: nat)
    requires Below(cells, parent) && AllClean(cells)
    ensures GoodEach(RenderCells(parent, cells, n), n)
    decreases parent, 1, |cells|
  {
    hide Good, GoodEach, Plain, Clean;
    if cells == [] {
      NoneGood(n);
    } else {
      var r := RenderCell(cells[0], n);
      CellGood(cells[0], n);
      CellsGood(parent, cells[1..], n + |r.refs|);
      GoodFirst(r, RenderCells(parent, cells[1..], n + |r.refs|), n);
    }
  }

  lemma {:induction false} CellGood(cell: Node, n: nat)
    requires Clean(cell)
    ensures Good(RenderCell(cell, n), n)
    decreases cell, 3, 0
  {
    assert SparesMarks(CellChar);
    hide Good, Plain, Clean, CellChar, SparesMarks;
    BlocksGood(cell, n);
    PerCharGood(RenderBlocks(cell, n), CellChar, n);
  }

  ghost predicate GoodRows(rows: seq<seq<Rendered>>, n: nat)
    decreases |rows|
  {
    rows == [] || (GoodEach(rows[0], n) && GoodRows(rows[1..], n + |AllRefs(rows[0])|))
  }

  lemma {:induction false} RowsGood(parent: Node, rows: seq<Node>, n: nat)
    requires Below(rows, parent) && AllClean(rows)
    ensures GoodRows(RenderRows(parent, rows, n), n)
    decreases parent, 1, |rows|
  {
    if rows != [] {
      CleanChildren(rows[0]);
      hide Good, Plain, Clean, GoodEach, AllRefs, GoodRows;
      var cells := RenderCells(rows[0], Children(rows[0]), n);
      CellsGood(rows[0], Children(rows[0]), n);
      RowsGood(parent, rows[1..], n + |AllRefs(cells)|);
      GoodFirstRow(cells, RenderRows(parent, rows[1..], n + |AllRefs(cells)|), n);
    }
  }

  lemma GoodFirstRow(first: seq<Rendered>, rest: seq<seq<Rendered>>, n: nat)
    requires GoodEach(first, n) && GoodRows(rest, n + |AllRefs(first)|)
    ensures GoodRows([first] + rest, n)
  {
    hide GoodEach, AllRefs;
    assert ([first] + rest)[1..] == rest;
  }

  lemma {:induction false} BlanksGood(k: nat, n: nat)
    ensures GoodEach(Blanks(k), n) && AllRefs(Blanks(k)) == []
  {
    PlainText("");
    hide Good, Plain;
    if k > 0 {
      PlainGood("", n);
      BlanksGood(k - 1, n);
      assert Blanks(k)[0] == Plainly("") && Blanks(k)[1..] == Blanks(k - 1);
      assert [] + AllRefs(Blanks(k - 1)) == AllRefs(Blanks(k - 1));
    }
  }

  lemma {:induction false} GoodEachConcat(rs: seq<Rendered>, ss: seq<Rendered>, n: nat)
    requires GoodEach(rs, n) && GoodEach(ss, n + |AllRefs(rs)|)
    ensures GoodEach(rs + ss, n) && AllRefs(rs + ss) == AllRefs(rs) + AllRefs(ss)
    decreases |rs|
  {
    hide Good;
    if rs == [] {
      assert rs + ss == ss;
    } else {
      assert rs + ss == [rs[0]] + (rs[1..] + ss);
      GoodEachConcat(rs[1..], ss, n + |rs[0].refs|);
      GoodFirst(rs[0], rs[1..] + ss, n);
      assert AllRefs([rs[0]] + (rs[1..] + ss)) == rs[0].refs + AllRefs(rs[1..] + ss) by {
        assert ([rs[0]] + (rs[1..] + ss))[1..] == rs[1..] + ss;
      }
    }
  }

  lemma RowLineGood(cells: seq<Rendered>, width: nat, n: nat)
    requires GoodEach(cells, n)
    ensures Good(RowLine(cells, width), n) && RowLine(cells, width).refs == AllRefs(cells)
  {
    var k := if width > |cells| then width - |cells| else 0;
    PlainText(" | ");
    PlainText("| ");
    PlainText(" |");
    BlanksGood(k, n + |AllRefs(cells)|);
    GoodEachConcat(cells, Blanks(k), n);
    hide Good, Plain, GoodEach;
    JoinGood(cells + Blanks(k), " | ", n);
    AroundGood("| ", Joined(cells + Blanks(k), " | "), " |", n);
  }

  lemma {:induction false} RowLinesGood(rows: seq<seq<Rendered>>, width: nat, n: nat)
    requires GoodRows(rows, n)
    ensures GoodEach(RowLines(rows, width), n)
    decreases |rows|
  {
    hide Good, Plain;
    if rows != [] {
      RowLineGood(rows[0], width, n);
      RowLinesGood(rows[1..], width, n + |AllRefs(rows[0])|);
    }
  }

  lemma {:induction false} RulesPlain(k: nat)
    ensures Plain(Join(Rules(k), " | "))
  {
    if k > 0 {
      RulesPlain(k - 1);
      assert Rules(k)[1..] == Rules(k - 1);
    }
  }

  lemma {:induction false} TableGood(node: Node, n: nat)
    requires Clean(node)
    ensures Good(RenderTable(node, n), n)
    decreases node, 4, 0
  {
    CleanChildren(node);
    PlainText("\n");
    hide Good, Plain, Clean, GoodRows, RowLine, RowLines, RuleLine, Width;
    var rows := RenderRows(node, Children(node), n);
    RowsGood(node, Children(node), n);
    if rows == [] {
      PlainGood("", n);
    } else {
      var width := Width(rows);
      TableLinesGood(rows, width, n);
      JoinGood([RowLine(rows[0], width)] + ([RuleLine(width)] + RowLines(rows[1..], width)), "\n", n);
    }
  }

  lemma TableLinesGood(rows: seq<seq<Rendered>>, width: nat, n: nat)
    requires rows != [] && GoodRows(rows, n)
    ensures GoodEach([RowLine(rows[0], width)] + ([RuleLine(width)] + RowLines(rows[1..], width)), n)
  {
    hide Good, Plain, RowLine, RowLines, RuleLine, GoodEach;
    var m := n + |AllRefs(rows[0])|;
    RuleLineGood(width, m);
    RowLineGood(rows[0], width, n);
    RowLinesGood(rows[1..], width, m);
    GoodFirst(RuleLine(width), RowLines(rows[1..], width), m);
    GoodFirst(RowLine(rows[0], width), [RuleLine(width)] + RowLines(rows[1..], width), n);
  }

  lemma RuleLineGood(width: nat, n: nat)
    ensures Good(RuleLine(width), n) && RuleLine(width).refs == []
  {
    RulesPlain(width);
    PlainGood("| " + Join(Rules(width), " | ") + " |", n);
  }

  // ---------- the converted document ----------

  ghost predicate CleanInput(input: Option<Node>) { input.Some? ==> Clean(input.value) }

  lemma ConvertGood(input: Option<Node>)
    requires CleanInput(input)
    ensures Good(Convert(input), 0)
  {
    if input.Some? && input.value.kind.Doc? {
      BlocksGood(input.value, 0);
    } else {
      PlainGood("", 0);
    }
  }

  /** The delimited pieces of a text, from the left. */
  function MarksIn(s: string): seq<string>
    decreases |s|
  {
    if s == "" then []
    else if s[0] == OPEN then [FirstMark(s)] + MarksIn(s[|FirstMark(s)|..])
    else MarksIn(s[1..])
  }

  lemma {:induction false} CarriedMarks(s: string, marks: seq<string>)
    requires Carries(s, marks)
    ensures MarksIn(s) == marks
    decreases |s|
  {
    if s != "" {
      if s[0] == OPEN {
        assert s == marks[0] + s[|marks[0]|..];
        FirstMarkIs(marks[0], s[|marks[0]|..]);
        CarriedMarks(s[|marks[0]|..], marks[1..]);
        assert marks == [marks[0]] + marks[1..];
      } else {
        CarriedMarks(s[1..], marks);
      }
    }
  }

  /** Every recorded reference appears in the Markdown exactly once, in recording order, and
      nothing else in it is delimited. */
  lemma ReferencesAppearOnceInOrder(input: Option<Node>)
    requires CleanInput(input)
    ensures MarksIn(Convert(input).text) == Names(Convert(input).refs)
    ensures forall i, j | 0 <= i < j < |Convert(input).refs| ::
              Names(Convert(input).refs)[i] != Names(Convert(input).refs)[j]
  {
    var r := Convert(input);
    ConvertGood(input);
    CarriedMarks(r.text, Names(r.refs));
    DistinctNames(r.refs);
  }

  lemma DistinctNames(refs: seq<Reference>)
    requires Numbered(refs, 0)
    ensures forall i, j | 0 <= i < j < |refs| :: Names(refs)[i] != Names(refs)[j]
  {
    hide Placeholder, PlainReference;
    forall i, j | 0 <= i < j < |refs| ensures Names(refs)[i] != Names(refs)[j] {
      assert Recorded(refs[i], 0 + i) && Recorded(refs[j], 0 + j);
      var ms :| refs[i].placeholder == Placeholder(i, ms);
      var ns :| refs[j].placeholder == Placeholder(j, ns);
      if Placeholder(i, ms) == Placeholder(j, ns) {
        PlaceholderInjective(i, ms, j, ns);
      }
    }
  }

  lemma {:induction false} EveryMarkReplaced(s: string, marks: seq<string>, table: map<string, string>)
    requires Carries(s, marks)
    requires forall i | 0 <= i < |marks| :: marks[i] in table && Plain(table[marks[i]])
    ensures Plain(Substitute(s, table))
    decreases |s|
  {
    if s != "" {
      if s[0] == OPEN {
        var rest := s[|marks[0]|..];
        assert s == marks[0] + rest;
        SubstituteMark(marks[0], rest, table);
        EveryMarkReplaced(rest, marks[1..], table);
      } else {
        EveryMarkReplaced(s[1..], marks, table);
      }
    }
  }

  lemma {:induction false} TableKnows(refs: seq<Reference>, destinations: map<string, Destination>, p: string)
    requires forall i | 0 <= i < |refs| :: PlainReference(refs[i])
    requires forall q | q in destinations :: PlainDestination(destinations[q])
    ensures p in TableOf(refs, destinations) <==> p in Names(refs)
    ensures p in TableOf(refs, destinations) ==> Plain(TableOf(refs, destinations)[p])
    decreases |refs|
  {
    if refs != [] {
      ReplacementPlain(refs[0], destinations);
      hide Replacement, PlainReference, PlainDestination, Plain;
      TableKnows(refs[1..], destinations, p);
      assert Names(refs) == [refs[0].placeholder] + Names(refs[1..]);
    }
  }

  /** Rewriting the references of a converted document one by one is one simultaneous
      substitution, and no placeholder is left. */
  lemma RewrittenDocument(input: Option<Node>, destinations: map<string, Destination>)
    requires CleanInput(input)
    requires forall p | p in destinations :: PlainDestination(destinations[p])
    ensures (forall i | 0 <= i < |Convert(input).refs| :: Convert(input).refs[i].placeholder != "")
            && Rewrite(Convert(input).text, Convert(input).refs, destinations)
               == Substitute(Convert(input).text, TableOf(Convert(input).refs, destinations))
    ensures Plain(Rewrite(Convert(input).text, Convert(input).refs, destinations))
  {
    ConvertGood(input);
    hide Convert, Good, Plain, Clean;
    RewrittenPiece(Convert(input), destinations);
  }

  lemma RewrittenPiece(r: Rendered, destinations: map<string, Destination>)
    requires Good(r, 0) && forall p | p in destinations :: PlainDestination(destinations[p])
    ensures (forall i | 0 <= i < |r.refs| :: r.refs[i].placeholder != "")
            && Rewrite(r.text, r.refs, destinations) == Substitute(r.text, TableOf(r.refs, destinations))
    ensures Plain(Rewrite(r.text, r.refs, destinations))
  {
    var table := TableOf(r.refs, destinations);
    forall i: nat | i < |r.refs| ensures PlainReference(r.refs[i]) && r.refs[i].placeholder != "" {
      assert Recorded(r.refs[i], 0 + i);
    }
    hide Plain, Numbered, Recorded, PlainReference, PlainDestination, TableOf, Rewrite, Substitute, Carries;
    RewriteIsSubstitution(r.text, Names(r.refs), r.refs, destinations);
    forall i | 0 <= i < |r.refs| ensures Names(r.refs)[i] in table && Plain(table[Names(r.refs)[i]]) {
      TableKnows(r.refs, destinations, Names(r.refs)[i]);
    }
    EveryMarkReplaced(r.text, Names(r.refs), table);
  }
}
