/** The final Markdown (rewriteJiraReferences, Adf.ts): what a document says, with a link or the
    fallback text in the place of each reference. */
module AdfRewritten {
  import opened Wrappers
  import opened AdfText
  import opened AdfReferences
  import opened Adf
  import opened AdfShows
  import opened AdfOutline
  import opened AdfConversion

  /** What stands for the n-th reference: the link to its destination, the link to where it led
      in Jira, or its text alone. From the millionth on the marks are lost. */
  function LinkFor(reference: Piece, n: nat, destinations: map<string, Destination>): string
    requires reference.Refers?
  {
    var p := Placeholder(n, reference.marks);
    var marks := if n < 1_000_000 then reference.marks else [];
    if p in destinations then
      var d := destinations[p];
      (if d.embed then "!" else "")
      + ("[" + InMarks(if d.text.None? then reference.fallbackText else d.text.value, marks) + "](" + d.url + ")")
    else if reference.originalUrl.None? || reference.originalUrl.value == "" then
      InMarks(reference.fallbackText, marks)
    else "[" + InMarks(reference.fallbackText, marks) + "](" + reference.originalUrl.value + ")"
  }

  /** The pieces in a row, with the references in place. */
  function FlatLinked(pieces: seq<Piece>, n: nat, destinations: map<string, Destination>): string {
    if pieces == [] then ""
    else if pieces[0].Words? then pieces[0].text + FlatLinked(pieces[1..], n, destinations)
    else LinkFor(pieces[0], n, destinations) + FlatLinked(pieces[1..], n + 1, destinations)
  }

  // ---------- one reference ----------

  lemma KeptMarks(n: nat, marks: seq<TextMark>)
    ensures ReferenceMarks(Placeholder(n, marks)) == if n < 1_000_000 then marks else []
  {
    PaddedDigits(n);
    SixDigitsIff(n);
    MarksSurviveIff(n, marks);
    hide ReferenceMarks;
    if n >= 1_000_000 {
      ManyDigitMarks(Padded6(n), MarkSuffix(marks));
    }
  }

  lemma ReplacementShows(reference: Piece, n: nat, destinations: map<string, Destination>)
    requires reference.Refers?
    ensures Shows(Replacement(ReferenceOf(reference, n), destinations), LinkFor(reference, n, destinations), true)
  {
    KeptMarks(n, reference.marks);
    hide Placeholder, ReferenceMarks, Shows, MarkedText, InMarks, EscapeUrl;
    var marks := if n < 1_000_000 then reference.marks else [];
    var p := Placeholder(n, reference.marks);
    if p in destinations {
      var d := destinations[p];
      MarkdownLinkShows(if d.text.Some? then d.text.value else reference.fallbackText, d.url, marks, d.embed);
    } else if reference.originalUrl.Some? && reference.originalUrl.value != "" {
      MarkdownLinkShows(reference.fallbackText, reference.originalUrl.value, marks, false);
      var link := "[" + InMarks(reference.fallbackText, marks) + "](" + reference.originalUrl.value + ")";
      assert "" + link == link;
    } else {
      MarkedTextShows(reference.fallbackText, marks);
      ShowsLoosely(MarkedText(reference.fallbackText, marks), InMarks(reference.fallbackText, marks));
    }
  }

  function ReferenceOf(reference: Piece, n: nat): Reference
    requires reference.Refers?
  {
    Reference(reference.kind, reference.sourceId, Placeholder(n, reference.marks), reference.originalUrl, reference.fallbackText)
  }

  lemma MarkdownLinkShows(text: string, url: string, marks: seq<TextMark>, embed: bool)
    ensures Shows(MarkdownLink(text, url, marks, embed),
                  (if embed then "!" else "") + ("[" + InMarks(text, marks) + "](" + url + ")"), true)
  {
    var bang := if embed then "!" else "";
    LinkShows(text, url, marks);
    ShowsItself(bang, true);
    hide Shows, MarkedText, InMarks, EscapeUrl;
    var link, shown := "[" + MarkedText(text, marks) + "](" + EscapeUrl(url) + ")", "[" + InMarks(text, marks) + "](" + url + ")";
    ShowsLoosely(link, shown);
    ShowsConcat(bang, link, bang, shown, true);
    assert bang + link == MarkdownLink(text, url, marks, embed);
  }

  // ---------- placeholders show as themselves only ----------

  predicate Solid(m: string) {
    forall i | 0 <= i < |m| :: m[i] == OPEN || m[i] == CLOSE || 'a' <= m[i] <= 'z' || m[i] in "-:," || IsDigit(m[i])
  }

  lemma PlaceholderSolid(n: nat, marks: seq<TextMark>)
    ensures Solid(Placeholder(n, marks)) && IsMark(Placeholder(n, marks))
  {
    PlaceholderIsMark(n, marks);
    var digits, suffix := Padded6(n), MarkSuffix(marks);
    PaddedDigits(n);
    if marks != [] {
      JoinedNamesArePlain(marks);
    }
    hide Padded6, JoinNames;
    assert Solid(PREFIX) && Solid(digits) && Solid(suffix) && Solid([CLOSE]);
  }

  /** A solid beginning of both can be taken off. */
  lemma {:induction false} SolidCancels(m: string, s: string, t: string)
    requires Solid(m) && Shows(m + s, m + t, true)
    ensures Shows(s, t, true)
    decreases |m|
  {
    if m == "" {
      assert m + s == s && m + t == t;
    } else {
      var a, b := m + s, m + t;
      assert a[0] == m[0] && b[0] == m[0] && !Spacing(m[0]) && m[0] != '%' && m[0] != '<';
      assert a[1..] == m[1..] + s && b[1..] == m[1..] + t;
      assert Shows(a[1..], b[1..], true);
      SolidCancels(m[1..], s, t);
    }
  }

  /** Texts that replace the same placeholders, one showing the other. */
  ghost predicate Corresponds(marks: seq<string>, table: map<string, string>, links: map<string, string>) {
    forall i | 0 <= i < |marks| ::
      Solid(marks[i]) && marks[i] in table && marks[i] in links && Shows(table[marks[i]], links[marks[i]], true)
  }

  lemma {:induction false} SubstituteShows(s: string, t: string, marks: seq<string>, table: map<string, string>, links: map<string, string>)
    requires Shows(s, t, true) && Carries(s, marks) && Carries(t, marks) && Corresponds(marks, table, links)
    ensures Shows(Substitute(s, table), Substitute(t, links), true)
    decreases |s| + |t|
  {
    if s == "" && t == "" {
    } else if s != "" && t != "" && s[0] == t[0] && Shows(s[1..], t[1..], true) {
      if s[0] == OPEN {
        MarkShows(s, t, marks, table, links);
      } else {
        SubstituteShows(s[1..], t[1..], marks, table, links);
        ShowsMore(Substitute(s[1..], table), Substitute(t[1..], links), s[0], true);
      }
    } else if s != "" && Spacing(s[0]) && Shows(s[1..], t, true) {
      SubstituteShows(s[1..], t, marks, table, links);
      ShowsMore(Substitute(s[1..], table), Substitute(t, links), s[0], true);
    } else if t != "" && t[0] == ' ' && "%20" <= s && Shows(s[3..], t[1..], true) {
      PlainWord("%20", s, marks, table);
      SubstituteShows(s[3..], t[1..], marks, table, links);
      ShowsMore(Substitute(s[3..], table), Substitute(t[1..], links), ' ', true);
    } else if "<br>" <= s && Shows(s[4..], t, true) {
      PlainWord("<br>", s, marks, table);
      SubstituteShows(s[4..], t, marks, table, links);
      ShowsMore(Substitute(s[4..], table), Substitute(t, links), ' ', true);
    } else {
      SubstituteShows(s, t[1..], marks, table, links);
      ShowsMore(Substitute(s, table), Substitute(t[1..], links), t[0], true);
    }
  }

  lemma {:induction false} PlainWord(word: string, s: string, marks: seq<string>, table: map<string, string>)
    requires Plain(word) && word <= s && Carries(s, marks)
    ensures Carries(s[|word|..], marks) && Substitute(s, table) == word + Substitute(s[|word|..], table)
    decreases |word|
  {
    if word != "" {
      assert word == [word[0]] + word[1..] && s[0] == word[0] && word[1..] <= s[1..];
      PlainWord(word[1..], s[1..], marks, table);
      assert s[1..][|word| - 1..] == s[|word|..];
    }
  }

  lemma {:induction false} MarkShows(s: string, t: string, marks: seq<string>, table: map<string, string>, links: map<string, string>)
    requires Shows(s, t, true) && Carries(s, marks) && Carries(t, marks) && Corresponds(marks, table, links)
    requires s != "" && t != "" && s[0] == OPEN && t[0] == OPEN
    ensures Shows(Substitute(s, table), Substitute(t, links), true)
    decreases |s| + |t|, 0
  {
    var m := marks[0];
    var a, b := s[|m|..], t[|m|..];
    assert s == m + a && t == m + b && Carries(a, marks[1..]) && Carries(b, marks[1..]) && IsMark(m);
    hide Shows, Carries, Solid, Substitute;
    SolidCancels(m, a, b);
    SubstituteShows(a, b, marks[1..], table, links);
    SubstituteMark(m, a, table);
    SubstituteMark(m, b, links);
    ShowsConcat(table[m], Substitute(a, table), links[m], Substitute(b, links), true);
  }

  // ---------- the outline carries the same placeholders ----------

  predicate Delimits(c: char) { c == OPEN || c == CLOSE }

  function Count(s: string, c: char): nat { multiset(s)[c] }

  lemma CountConcat(a: string, b: string, c: char)
    ensures Count(a + b, c) == Count(a, c) + Count(b, c)
  {
  }

  lemma CountFirst(s: string, k: nat, c: char)
    requires k <= |s|
    ensures Count(s, c) == Count(s[..k], c) + Count(s[k..], c)
  {
    assert s == s[..k] + s[k..];
  }

  lemma CountChar(s: string, c: char)
    requires s != ""
    ensures Count(s, c) == (if s[0] == c then 1 else 0) + Count(s[1..], c)
  {
    CountFirst(s, 1, c);
    assert s[..1] == [s[0]];
  }

  /** Delimiters are neither left out nor added. */
  lemma {:induction false} ShowsCounts(s: string, t: string, c: char)
    requires Shows(s, t, true) && Delimits(c)
    ensures Count(s, c) == Count(t, c)
    decreases |s| + |t|
  {
    hide Count;
    if s == "" && t == "" {
    } else if s != "" && t != "" && s[0] == t[0] && Shows(s[1..], t[1..], true) {
      CountChar(s, c);
      CountChar(t, c);
      ShowsCounts(s[1..], t[1..], c);
    } else if s != "" && Spacing(s[0]) && Shows(s[1..], t, true) {
      CountChar(s, c);
      ShowsCounts(s[1..], t, c);
    } else if t != "" && t[0] == ' ' && "%20" <= s && Shows(s[3..], t[1..], true) {
      CountFirst(s, 3, c);
      assert s[..3] == "%20";
      PlainCount("%20", c);
      CountChar(t, c);
      ShowsCounts(s[3..], t[1..], c);
    } else if "<br>" <= s && Shows(s[4..], t, true) {
      CountFirst(s, 4, c);
      assert s[..4] == "<br>";
      PlainCount("<br>", c);
      ShowsCounts(s[4..], t, c);
    } else {
      CountChar(t, c);
      ShowsCounts(s, t[1..], c);
    }
  }

  lemma PlainCount(s: string, c: char)
    requires Delimits(c)
    ensures Plain(s) ==> Count(s, c) == 0
  {
  }

  lemma MarkCount(m: string, c: char)
    requires IsMark(m) && Delimits(c)
    ensures Count(m, c) == 1
  {
    var inside := m[1..|m| - 1];
    assert m == [OPEN] + inside + [CLOSE];
    assert OPEN !in inside && CLOSE !in inside;
  }

  lemma {:induction false} CarriesCounts(s: string, marks: seq<string>, c: char)
    requires Carries(s, marks) && Delimits(c)
    ensures Count(s, c) == |marks|
    decreases |s|
  {
    hide Count;
    if s == "" {
      PlainCount("", c);
    } else if s[0] == OPEN {
      var m := marks[0];
      MarkCount(m, c);
      CountFirst(s, |m|, c);
      assert s[..|m|] == m;
      CarriesCounts(s[|m|..], marks[1..], c);
    } else {
      CountChar(s, c);
      CarriesCounts(s[1..], marks, c);
    }
  }

  /** The words of the pieces contain no delimiter. */
  ghost predicate PlainWords(pieces: seq<Piece>) {
    forall i | 0 <= i < |pieces| && pieces[i].Words? :: Plain(pieces[i].text)
  }

  lemma NoneCounted(s: string)
    ensures Count(s, OPEN) == 0 && Count(s, CLOSE) == 0 ==> Plain(s)
  {
  }

  /** Every reference brings one of each delimiter, and only words can bring more. */
  lemma {:induction false} FlatCounts(pieces: seq<Piece>, n: nat)
    ensures Count(Flat(pieces, n), OPEN) >= |Listed(pieces, n)| && Count(Flat(pieces, n), CLOSE) >= |Listed(pieces, n)|
    ensures Count(Flat(pieces, n), OPEN) == |Listed(pieces, n)| == Count(Flat(pieces, n), CLOSE) ==> PlainWords(pieces)
  {
    hide Placeholder;
    if pieces != [] {
      var first := pieces[0];
      assert pieces == [first] + pieces[1..];
      match first
      case Words(text) =>
        FlatCounts(pieces[1..], n);
        CountConcat(text, Flat(pieces[1..], n), OPEN);
        CountConcat(text, Flat(pieces[1..], n), CLOSE);
        NoneCounted(text);
        hide Count, Plain;
      case Refers(_, _, _, _, marks) =>
        FlatCounts(pieces[1..], n + 1);
        PlaceholderIsMark(n, marks);
        MarkCount(Placeholder(n, marks), OPEN);
        MarkCount(Placeholder(n, marks), CLOSE);
        CountConcat(Placeholder(n, marks), Flat(pieces[1..], n + 1), OPEN);
        CountConcat(Placeholder(n, marks), Flat(pieces[1..], n + 1), CLOSE);
    }
  }

  lemma NamesFirst(ref: Reference, refs: seq<Reference>)
    ensures Names([ref] + refs) == [ref.placeholder] + Names(refs)
  {
  }

  lemma {:induction false} FlatCarries(pieces: seq<Piece>, n: nat)
    requires PlainWords(pieces)
    ensures Carries(Flat(pieces, n), Names(Listed(pieces, n)))
  {
    hide Placeholder, Plain;
    if pieces == [] {
      assert Names([]) == [];
    } else {
      match pieces[0]
      case Words(text) =>
        FlatCarries(pieces[1..], n);
        PlainCarriesNothing(text);
        CarriesConcat(text, Flat(pieces[1..], n), [], Names(Listed(pieces[1..], n)));
        assert [] + Names(Listed(pieces[1..], n)) == Names(Listed(pieces[1..], n));
      case Refers(kind, sourceId, url, fallback, marks) =>
        var p := Placeholder(n, marks);
        FlatCarries(pieces[1..], n + 1);
        PlaceholderIsMark(n, marks);
        MarkCarriesItself(p);
        CarriesConcat(p, Flat(pieces[1..], n + 1), [p], Names(Listed(pieces[1..], n + 1)));
        NamesFirst(Reference(kind, sourceId, p, url, fallback), Listed(pieces[1..], n + 1));
    }
  }

  // ---------- the links of all pieces ----------

  function Links(pieces: seq<Piece>, n: nat, destinations: map<string, Destination>): map<string, string> {
    if pieces == [] then map[]
    else if pieces[0].Words? then Links(pieces[1..], n, destinations)
    else
      Links(pieces[1..], n + 1, destinations)[Placeholder(n, pieces[0].marks) := LinkFor(pieces[0], n, destinations)]
  }

  lemma {:induction false} LinksCorrespond(pieces: seq<Piece>, n: nat, destinations: map<string, Destination>)
    ensures Corresponds(Names(Listed(pieces, n)), TableOf(Listed(pieces, n), destinations), Links(pieces, n, destinations))
    ensures TableOf(Listed(pieces, n), destinations).Keys == Links(pieces, n, destinations).Keys
  {
    hide Placeholder, Shows, LinkFor, Replacement, Solid;
    if pieces != [] {
      var rest := pieces[1..];
      if pieces[0].Words? {
        LinksCorrespond(rest, n, destinations);
      } else {
        var ref := ReferenceOf(pieces[0], n);
        LinksCorrespond(rest, n + 1, destinations);
        PlaceholderSolid(n, pieces[0].marks);
        ReplacementShows(pieces[0], n, destinations);
        NamesFirst(ref, Listed(rest, n + 1));
        assert Listed(pieces, n) == [ref] + Listed(rest, n + 1) && ([ref] + Listed(rest, n + 1))[1..] == Listed(rest, n + 1);
      }
    }
  }

  /** The table knows the link of every reference by its number. */
  ghost predicate Knows(table: map<string, string>, pieces: seq<Piece>, n: nat, destinations: map<string, Destination>) {
    pieces == []
    || if pieces[0].Words? then Knows(table, pieces[1..], n, destinations)
       else
         var p := Placeholder(n, pieces[0].marks);
         p in table && table[p] == LinkFor(pieces[0], n, destinations) && Knows(table, pieces[1..], n + 1, destinations)
  }

  lemma {:induction false} KnowsMore(table: map<string, string>, pieces: seq<Piece>, n: nat,
                                     destinations: map<string, Destination>, m: nat, marks: seq<TextMark>, link: string)
    requires Knows(table, pieces, n, destinations) && m < n
    ensures Knows(table[Placeholder(m, marks) := link], pieces, n, destinations)
  {
    hide Placeholder, LinkFor;
    if pieces != [] {
      if pieces[0].Words? {
        KnowsMore(table, pieces[1..], n, destinations, m, marks, link);
      } else {
        if Placeholder(m, marks) == Placeholder(n, pieces[0].marks) {
          PlaceholderInjective(m, marks, n, pieces[0].marks);
        }
        KnowsMore(table, pieces[1..], n + 1, destinations, m, marks, link);
      }
    }
  }

  lemma {:induction false} LinksKnow(pieces: seq<Piece>, n: nat, destinations: map<string, Destination>)
    ensures Knows(Links(pieces, n, destinations), pieces, n, destinations)
  {
    hide Placeholder, LinkFor;
    if pieces != [] {
      if pieces[0].Words? {
        LinksKnow(pieces[1..], n, destinations);
      } else {
        LinksKnow(pieces[1..], n + 1, destinations);
        KnowsMore(Links(pieces[1..], n + 1, destinations), pieces[1..], n + 1, destinations, n, pieces[0].marks,
                  LinkFor(pieces[0], n, destinations));
      }
    }
  }

  lemma {:induction false} SubstituteFlat(pieces: seq<Piece>, n: nat, table: map<string, string>, destinations: map<string, Destination>)
    requires PlainWords(pieces) && Knows(table, pieces, n, destinations)
    ensures Substitute(Flat(pieces, n), table) == FlatLinked(pieces, n, destinations)
  {
    hide Placeholder, LinkFor, Plain, Substitute;
    if pieces == [] {
      SubstituteNothing(table);
    } else if pieces[0].Words? {
      SubstituteFlat(pieces[1..], n, table, destinations);
      SubstitutePlain(pieces[0].text, Flat(pieces[1..], n), table);
    } else {
      SubstituteFlat(pieces[1..], n + 1, table, destinations);
      PlaceholderIsMark(n, pieces[0].marks);
      SubstituteMark(Placeholder(n, pieces[0].marks), Flat(pieces[1..], n + 1), table);
    }
  }

  lemma SubstituteNothing(table: map<string, string>)
    ensures Substitute("", table) == ""
  {
  }

  /** After its references are rewritten, the Markdown of a document shows its outline with a
      link, or the text alone, in the place of each reference. */
  lemma RewrittenShowsLinks(document: Node, destinations: map<string, Destination>)
    requires document.kind.Doc? && Clean(document)
    requires forall p | p in destinations :: PlainDestination(destinations[p])
    ensures var r := Convert(Some(document));
            && (forall i | 0 <= i < |r.refs| :: r.refs[i].placeholder != "")
            && Shows(Rewrite(r.text, r.refs, destinations), FlatLinked(Outline(document), 0, destinations), true)
  {
    RewrittenDocument(Some(document), destinations);
    ConvertGood(Some(document));
    ConvertShowsOutline(document);
    hide Convert, Clean;
    PieceShowsLinks(Convert(Some(document)), Outline(document), destinations);
  }

  lemma PieceShowsLinks(r: Rendered, pieces: seq<Piece>, destinations: map<string, Destination>)
    requires Good(r, 0) && Meets(r, pieces, 0, true)
    ensures Shows(Substitute(r.text, TableOf(r.refs, destinations)), FlatLinked(pieces, 0, destinations), true)
  {
    hide Shows, Carries, Numbered, TableOf, Substitute, Count, PlainWords, Listed, Flat, Links;
    var t, names := Flat(pieces, 0), Names(r.refs);
    ShowsCounts(r.text, t, OPEN);
    ShowsCounts(r.text, t, CLOSE);
    CarriesCounts(r.text, names, OPEN);
    CarriesCounts(r.text, names, CLOSE);
    FlatCounts(pieces, 0);
    FlatCarries(pieces, 0);
    LinksCorrespond(pieces, 0, destinations);
    LinksKnow(pieces, 0, destinations);
    SubstituteShows(r.text, t, names, TableOf(r.refs, destinations), Links(pieces, 0, destinations));
    SubstituteFlat(pieces, 0, Links(pieces, 0, destinations), destinations);
  }
}
