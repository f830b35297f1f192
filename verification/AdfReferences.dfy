/** References in converted text (Adf.ts): each becomes a placeholder between two private-use
    characters, and later every placeholder is rewritten, one after the other. */
module AdfReferences {
  import opened Wrappers
  import opened AdfText

  const OPEN: char := '\U{E000}'
  const CLOSE: char := '\U{E001}'
  const PREFIX: string := [OPEN] + "jira-reference:"

  datatype TextMark = Strong | Em | Strike | Code

  datatype Kind = Issue | Attachment | User

  datatype Reference = Reference(
    kind: Kind, sourceId: string, placeholder: string, originalUrl: Option<string>, fallbackText: string)

  datatype Destination = Destination(url: string, text: Option<string>, embed: bool)

  // ---------- marked text ----------

  function Wrap(rendered: string, marks: seq<TextMark>): string
    decreases |marks|
  {
    if marks == [] then rendered
    else
      var outer :=
        match marks[0]
        case Strong => "**" + rendered + "**"
        case Em => "*" + rendered + "*"
        case Strike => "~~" + rendered + "~~"
        case Code => rendered;
      Wrap(outer, marks[1..])
  }

  function MarkedText(text: string, marks: seq<TextMark>): string {
    Wrap(if Code in marks then InlineCode(text) else EscapeText(text), marks)
  }

  method RenderMarkedText(text: string, marks: seq<TextMark>) returns (rendered: string)
    ensures rendered == MarkedText(text, marks)
  {
    rendered := if Code in marks then InlineCode(text) else EscapeText(text);
    var rest := marks;
    while rest != []
      invariant Wrap(rendered, rest) == MarkedText(text, marks)
      decreases |rest|
    {
      match rest[0] {
        case Strong => rendered := "**" + rendered + "**";
        case Em => rendered := "*" + rendered + "*";
        case Strike => rendered := "~~" + rendered + "~~";
        case Code =>
      }
      rest := rest[1..];
    }
  }

  predicate IsSpace(c: char) {
    || c in {' ', '\t', '\n', '\r', '\U{B}', '\U{C}', '\U{A0}', '\U{1680}', '\U{2028}', '\U{2029}', '\U{202F}', '\U{205F}',
             '\U{3000}', '\U{FEFF}'}
    || '\U{2000}' <= c <= '\U{200A}'
  }

  function EscapeUrlChar(c: char): string {
    if c == ' ' then "%20" else if c in {'\\', '(', ')'} || IsSpace(c) then ['\\', c] else [c]
  }

  function EscapeUrl(url: string): string { PerChar(url, EscapeUrlChar) }

  /** Reading a link destination up to the parenthesis that ends the link: an escaped
      parenthesis or backslash stands for itself (CommonMark 0.31.2, sections 2.4 and 6.3). */
  function ReadDestination(s: string): Option<(string, string)> {
    if s == "" || s[0] == '(' || IsSpace(s[0]) then None
    else if s[0] == ')' then Some(("", s[1..]))
    else
      var escape := s[0] == '\\' && |s| > 1 && s[1] in {'\\', '(', ')'};
      match ReadDestination(s[if escape then 2 else 1..])
      case None => None
      case Some((url, rest)) => Some(([if escape then s[1] else s[0]] + url, rest))
  }

  function SpacesCoded(url: string): string {
    if url == "" then "" else (if url[0] == ' ' then "%20" else [url[0]]) + SpacesCoded(url[1..])
  }

  lemma ReadOne(c: char, s: string)
    requires c !in {'(', ')', '\\'} && !IsSpace(c)
    ensures ReadDestination([c] + s) ==
            if ReadDestination(s).None? then None
            else Some(([c] + ReadDestination(s).value.0, ReadDestination(s).value.1))
  {
    assert ([c] + s)[1..] == s;
  }

  lemma ReadEscaped(c: char, s: string)
    requires c in {'\\', '(', ')'}
    ensures ReadDestination(['\\', c] + s) ==
            if ReadDestination(s).None? then None
            else Some(([c] + ReadDestination(s).value.0, ReadDestination(s).value.1))
  {
    assert (['\\', c] + s)[2..] == s;
  }

  lemma ReadBlank(c: char, s: string)
    requires IsSpace(c)
    ensures ReadDestination(['\\', c] + s).None?
  {
    assert (['\\', c] + s)[1..] == [c] + s;
    assert ([c] + s)[0] == c && ReadDestination([c] + s).None?;
  }

  /** White space only as spaces. */
  predicate OnlySpaces(url: string) { forall i | 0 <= i < |url| :: IsSpace(url[i]) ==> url[i] == ' ' }

  lemma OnlySpacesFirst(url: string)
    requires url != ""
    ensures OnlySpaces(url) <==> (IsSpace(url[0]) ==> url[0] == ' ') && OnlySpaces(url[1..])
  {
    hide IsSpace;
    assert url == [url[0]] + url[1..];
  }

  lemma ReadCodedSpace(s: string)
    ensures ReadDestination("%20" + s) ==
            if ReadDestination(s).None? then None
            else Some(("%20" + ReadDestination(s).value.0, ReadDestination(s).value.1))
  {
    SpacesAre();
    hide ReadDestination, IsSpace;
    assert "%20" + s == ['%'] + (['2'] + (['0'] + s));
    ReadOne('0', s);
    ReadOne('2', ['0'] + s);
    ReadOne('%', ['2'] + (['0'] + s));
    if ReadDestination(s).Some? {
      assert ['%'] + (['2'] + (['0'] + ReadDestination(s).value.0)) == "%20" + ReadDestination(s).value.0;
    }
  }

  /** A destination reads back, with its spaces as %20, exactly when it has no other white space. */
  lemma {:induction false} DestinationReadsBackIff(url: string, rest: string)
    ensures var s := EscapeUrl(url) + ")" + rest;
            if OnlySpaces(url) then ReadDestination(s) == Some((SpacesCoded(url), rest)) else ReadDestination(s).None?
  {
    if url == "" {
      assert (")" + rest)[1..] == rest && EscapeUrl(url) + ")" + rest == ")" + rest;
    } else {
      var c, tail := url[0], EscapeUrl(url[1..]) + ")" + rest;
      DestinationReadsBackIff(url[1..], rest);
      assert EscapeUrl(url) + ")" + rest == EscapeUrlChar(c) + tail;
      OnlySpacesFirst(url);
      SpacesAre();
      hide ReadDestination, IsSpace, OnlySpaces, EscapeUrl;
      if c == ' ' {
        ReadCodedSpace(tail);
      } else if c in {'\\', '(', ')'} {
        ReadEscaped(c, tail);
      } else if IsSpace(c) {
        ReadBlank(c, tail);
      } else {
        ReadOne(c, tail);
      }
    }
  }

  lemma SpacesAre()
    ensures IsSpace(' ') && !IsSpace('%') && !IsSpace('2') && !IsSpace('0')
    ensures !IsSpace('\\') && !IsSpace('(') && !IsSpace(')')
  {
  }

  function MarkdownLink(text: string, url: string, marks: seq<TextMark>, embed: bool): string {
    (if embed then "!" else "") + "[" + MarkedText(text, marks) + "](" + EscapeUrl(url) + ")"
  }

  // ---------- placeholders ----------

  function Digits(i: nat): (s: string)
    ensures s != ""
  {
    (if i < 10 then "" else Digits(i / 10)) + [('0' as int + i % 10) as char]
  }

  function Padded6(i: nat): string {
    Repeat('0', if |Digits(i)| < 6 then 6 - |Digits(i)| else 0) + Digits(i)
  }

  function MarkName(m: TextMark): string {
    match m
    case Strong => "strong"
    case Em => "em"
    case Strike => "strike"
    case Code => "code"
  }

  function JoinNames(marks: seq<TextMark>): string {
    if marks == [] then ""
    else if |marks| == 1 then MarkName(marks[0])
    else MarkName(marks[0]) + "," + JoinNames(marks[1..])
  }

  function MarkSuffix(marks: seq<TextMark>): string {
    if marks == [] then "" else ":" + JoinNames(marks)
  }

  function Placeholder(i: nat, marks: seq<TextMark>): string {
    PREFIX + Padded6(i) + MarkSuffix(marks) + [CLOSE]
  }

  predicate IsDigit(c: char) { '0' <= c <= '9' }

  function Upto(s: string, c: char): (n: nat)
    ensures n <= |s| && (n < |s| ==> s[n] == c) && c !in s[..n]
  {
    if s == "" || s[0] == c then 0 else 1 + Upto(s[1..], c)
  }

  function SplitNames(s: string): seq<string>
    decreases |s|
  {
    var n := Upto(s, ',');
    if n == |s| then [s] else [s[..n]] + SplitNames(s[n + 1..])
  }

  function NamedMarks(names: seq<string>): seq<TextMark> {
    if names == [] then []
    else (if names[0] == "strong" then [Strong]
          else if names[0] == "em" then [Em]
          else if names[0] == "strike" then [Strike]
          else if names[0] == "code" then [Code]
          else []) + NamedMarks(names[1..])
  }

  /** referenceMarks: exactly six digits, then the marks up to the closing character. */
  function ReferenceMarks(placeholder: string): seq<TextMark> {
    if !(PREFIX <= placeholder) || |placeholder| < |PREFIX| + 7 then []
    else
      var rest := placeholder[|PREFIX| + 6..];
      var n := Upto(rest, CLOSE);
      if !(forall k | |PREFIX| <= k < |PREFIX| + 6 :: IsDigit(placeholder[k])) || n == |rest|
         || n < 2 || rest[0] != ':' then []
      else NamedMarks(SplitNames(rest[1..n]))
  }

  lemma {:induction false} DigitsAreDigits(i: nat)
    ensures forall k | 0 <= k < |Digits(i)| :: IsDigit(Digits(i)[k])
  {
    if i >= 10 {
      DigitsAreDigits(i / 10);
    }
  }

  function Value(s: string): int {
    if s == "" then 0 else 10 * Value(s[..|s| - 1]) + (s[|s| - 1] as int - '0' as int)
  }

  lemma {:induction false} ValueOfDigits(i: nat)
    ensures Value(Digits(i)) == i
  {
    var s := Digits(i);
    if i >= 10 {
      ValueOfDigits(i / 10);
      assert s[..|s| - 1] == Digits(i / 10);
    } else {
      assert s[..|s| - 1] == "";
    }
  }

  lemma {:induction false} ValueIgnoresZeros(n: nat, s: string)
    ensures Value(Repeat('0', n) + s) == Value(s)
    decreases |s|, n
  {
    var t := Repeat('0', n) + s;
    if s != "" {
      assert t[..|t| - 1] == Repeat('0', n) + s[..|s| - 1];
      ValueIgnoresZeros(n, s[..|s| - 1]);
    } else if n > 0 {
      assert t[..|t| - 1] == Repeat('0', n - 1) + "";
      ValueIgnoresZeros(n - 1, s);
    }
  }

  lemma ValueOfPadded(i: nat)
    ensures Value(Padded6(i)) == i
  {
    ValueOfDigits(i);
    ValueIgnoresZeros(if |Digits(i)| < 6 then 6 - |Digits(i)| else 0, Digits(i));
  }

  lemma PaddedDigits(i: nat)
    ensures forall k | 0 <= k < |Padded6(i)| :: IsDigit(Padded6(i)[k])
    ensures |Padded6(i)| >= 6
  {
    DigitsAreDigits(i);
  }

  lemma SixDigitsIff(i: nat)
    ensures |Padded6(i)| == 6 <==> i < 1_000_000
  {
    var a, b, c, d, e := i / 10, i / 10 / 10, i / 10 / 10 / 10, i / 10 / 10 / 10 / 10, i / 10 / 10 / 10 / 10 / 10;
    assert |Digits(i)| == if i < 10 then 1 else 1 + |Digits(a)|;
    assert |Digits(a)| == if a < 10 then 1 else 1 + |Digits(b)|;
    assert |Digits(b)| == if b < 10 then 1 else 1 + |Digits(c)|;
    assert |Digits(c)| == if c < 10 then 1 else 1 + |Digits(d)|;
    assert |Digits(d)| == if d < 10 then 1 else 1 + |Digits(e)|;
    assert |Digits(e)| == 1 <==> e < 10;
  }

  lemma {:induction false} UptoIs(s: string, c: char, n: nat)
    requires n <= |s| && c !in s[..n] && (n < |s| ==> s[n] == c)
    ensures Upto(s, c) == n
  {
    if n > 0 {
      assert s[..n][0] == s[0] && s[..n][1..] == s[1..][..n - 1];
      UptoIs(s[1..], c, n - 1);
    }
  }

  lemma NamesArePlain(m: TextMark)
    ensures forall k | 0 <= k < |MarkName(m)| :: 'a' <= MarkName(m)[k] <= 'z'
    ensures MarkName(m) != ""
    ensures NamedMarks([MarkName(m)]) == [m]
  {
    assert "strong" != "em" && "strong" != "strike" && "em" != "strike" && "code" != "strong" && "code" != "em";
    assert "strike"[2] == 'r' && "strong"[3] == 'o' && "strike"[3] == 'i' && "code"[0] == 'c';
  }

  lemma {:induction false} JoinedNamesArePlain(marks: seq<TextMark>)
    requires marks != []
    ensures JoinNames(marks) != ""
    ensures forall k | 0 <= k < |JoinNames(marks)| :: JoinNames(marks)[k] == ',' || 'a' <= JoinNames(marks)[k] <= 'z'
  {
    NamesArePlain(marks[0]);
    if |marks| > 1 {
      JoinedNamesArePlain(marks[1..]);
    }
  }

  lemma SplitOne(name: string)
    requires ',' !in name
    ensures SplitNames(name) == [name]
  {
    assert name[..|name|] == name;
    UptoIs(name, ',', |name|);
  }

  lemma SplitFirst(name: string, rest: string)
    requires ',' !in name
    ensures SplitNames(name + "," + rest) == [name] + SplitNames(rest)
  {
    var s := name + "," + rest;
    assert s[..|name|] == name && s[|name|] == ',' && s[|name| + 1..] == rest;
    UptoIs(s, ',', |name|);
  }

  lemma NamedFirst(name: string, names: seq<string>)
    ensures NamedMarks([name] + names) == NamedMarks([name]) + NamedMarks(names)
  {
    assert ([name] + names)[1..] == names && [name][1..] == [];
  }

  lemma {:induction false} JoinedNamesSplit(marks: seq<TextMark>)
    requires marks != []
    ensures NamedMarks(SplitNames(JoinNames(marks))) == marks
  {
    var name := MarkName(marks[0]);
    NamesArePlain(marks[0]);
    assert ',' !in name;
    hide SplitNames, NamedMarks, MarkName;
    if |marks| == 1 {
      SplitOne(name);
    } else {
      JoinedNamesSplit(marks[1..]);
      SplitFirst(name, JoinNames(marks[1..]));
      NamedFirst(name, SplitNames(JoinNames(marks[1..])));
      assert marks == [marks[0]] + marks[1..];
    }
  }

  lemma PlaceholderParts(digits: string, suffix: string)
    requires |digits| == 6
    ensures var p := PREFIX + digits + suffix + [CLOSE];
            && |PREFIX| == 16 && |p| >= 23 && PREFIX <= p && p[22..] == suffix + [CLOSE]
            && forall k | 16 <= k < 22 :: p[k] == digits[k - 16]
  {
    var p := PREFIX + digits + suffix + [CLOSE];
    assert p == PREFIX + (digits + (suffix + [CLOSE]));
  }

  lemma SixDigitMarks(digits: string, marks: seq<TextMark>)
    requires |digits| == 6 && forall k | 0 <= k < 6 :: IsDigit(digits[k])
    ensures ReferenceMarks(PREFIX + digits + MarkSuffix(marks) + [CLOSE]) == marks
  {
    var suffix := MarkSuffix(marks);
    var rest := suffix + [CLOSE];
    PlaceholderParts(digits, suffix);
    if marks == [] {
      UptoIs(rest, CLOSE, 0);
    } else {
      JoinedNamesArePlain(marks);
      JoinedNamesSplit(marks);
      hide JoinNames, SplitNames, NamedMarks;
      assert rest[..|suffix|] == suffix && CLOSE !in suffix;
      UptoIs(rest, CLOSE, |suffix|);
      assert rest[1..|suffix|] == JoinNames(marks) && rest[0] == ':';
    }
  }

  lemma ManyDigitMarks(digits: string, suffix: string)
    requires |digits| > 6 && IsDigit(digits[6])
    ensures ReferenceMarks(PREFIX + digits + suffix + [CLOSE]) == []
  {
    var p := PREFIX + digits + suffix + [CLOSE];
    assert |PREFIX| == 16;
    assert p[22..][0] == digits[6];
  }

  /** The marks of a reference survive in its placeholder exactly while its number has six
      digits; an unmarked reference loses nothing. */
  lemma MarksSurviveIff(i: nat, marks: seq<TextMark>)
    ensures ReferenceMarks(Placeholder(i, marks)) == marks <==> marks == [] || i < 1_000_000
  {
    PaddedDigits(i);
    SixDigitsIff(i);
    hide ReferenceMarks;
    if |Padded6(i)| == 6 {
      SixDigitMarks(Padded6(i), marks);
    } else {
      ManyDigitMarks(Padded6(i), MarkSuffix(marks));
    }
  }

  /** The reference after the millionth loses its marks. */
  lemma MillionthLosesMarks(mark: TextMark)
    ensures ReferenceMarks(Placeholder(1_000_000, [mark])) != [mark]
  {
    MarksSurviveIff(1_000_000, [mark]);
  }

  // ---------- text that carries placeholders ----------

  predicate Plain(s: string) { OPEN !in s && CLOSE !in s }

  /** A placeholder's inside: nothing that joining, trimming, indenting or a table touches. */
  predicate Inert(c: char) { c != OPEN && c != CLOSE && c != '\n' && c != '|' }

  predicate IsMark(m: string) {
    |m| >= 2 && m[0] == OPEN && m[|m| - 1] == CLOSE && forall k | 0 < k < |m| - 1 :: Inert(m[k])
  }

  /** The text consists of plain characters and of these placeholders, in this order. */
  ghost predicate Carries(s: string, marks: seq<string>)
    decreases |s|
  {
    if s == "" then marks == []
    else if s[0] == OPEN then
      marks != [] && IsMark(marks[0]) && marks[0] <= s && Carries(s[|marks[0]|..], marks[1..])
    else s[0] != CLOSE && Carries(s[1..], marks)
  }

  lemma {:induction false} PlainCarriesNothing(s: string)
    requires Plain(s)
    ensures Carries(s, [])
  {
    if s != "" {
      PlainCarriesNothing(s[1..]);
    }
  }

  lemma {:induction false} CarriesConcat(a: string, b: string, ms: seq<string>, ns: seq<string>)
    requires Carries(a, ms) && Carries(b, ns)
    ensures Carries(a + b, ms + ns)
    decreases |a|
  {
    if a == "" {
      assert a + b == b && ms + ns == ns;
    } else if a[0] == OPEN {
      var m := ms[0];
      assert (a + b)[|m|..] == a[|m|..] + b && (ms + ns)[1..] == ms[1..] + ns;
      CarriesConcat(a[|m|..], b, ms[1..], ns);
    } else {
      assert (a + b)[1..] == a[1..] + b;
      CarriesConcat(a[1..], b, ms, ns);
    }
  }

  lemma MarkCarriesItself(m: string)
    requires IsMark(m)
    ensures Carries(m, [m])
  {
    assert m[|m|..] == "";
  }

  lemma PlaceholderIsMark(i: nat, marks: seq<TextMark>)
    ensures IsMark(Placeholder(i, marks))
  {
    var p, digits, suffix := Placeholder(i, marks), Padded6(i), MarkSuffix(marks);
    PaddedDigits(i);
    if marks != [] {
      JoinedNamesArePlain(marks);
    }
    hide Padded6, JoinNames;
    assert PREFIX[0] == OPEN && forall k | 0 < k < |PREFIX| :: Inert(PREFIX[k]);
    assert forall k | 0 <= k < |digits| :: Inert(digits[k]);
    assert forall k | 0 <= k < |suffix| :: Inert(suffix[k]);
    assert p == PREFIX + (digits + suffix) + [CLOSE];
  }

  /** Placeholders of different numbers differ. */
  lemma PlaceholderInjective(i: nat, marks: seq<TextMark>, j: nat, others: seq<TextMark>)
    requires Placeholder(i, marks) == Placeholder(j, others)
    ensures i == j
  {
    var d, e := Padded6(i), Padded6(j);
    var s, t := MarkSuffix(marks) + [CLOSE], MarkSuffix(others) + [CLOSE];
    PaddedDigits(i);
    PaddedDigits(j);
    ValueOfPadded(i);
    ValueOfPadded(j);
    assert !IsDigit(s[0]) && !IsDigit(t[0]);
    hide Padded6, MarkSuffix;
    SameAfterPrefix(d, MarkSuffix(marks), e, MarkSuffix(others));
    DigitsEnd(d, s, e, t);
  }

  lemma SameAfterPrefix(d: string, s: string, e: string, t: string)
    requires PREFIX + d + s + [CLOSE] == PREFIX + e + t + [CLOSE]
    ensures d + (s + [CLOSE]) == e + (t + [CLOSE])
  {
    var p, q := PREFIX + d + s + [CLOSE], PREFIX + e + t + [CLOSE];
    assert p[|PREFIX|..] == d + (s + [CLOSE]) && q[|PREFIX|..] == e + (t + [CLOSE]);
  }

  lemma {:induction false} DigitsEnd(d: string, s: string, e: string, t: string)
    requires d + s == e + t && s != "" && t != "" && !IsDigit(s[0]) && !IsDigit(t[0])
    requires (forall k | 0 <= k < |d| :: IsDigit(d[k])) && (forall k | 0 <= k < |e| :: IsDigit(e[k]))
    ensures d == e
  {
    assert d != [] ==> (d + s)[0] == d[0];
    assert e != [] ==> (e + t)[0] == e[0];
    assert d == [] ==> (d + s)[0] == s[0];
    assert e == [] ==> (e + t)[0] == t[0];
    if d != [] {
      assert (d + s)[1..] == d[1..] + s && (e + t)[1..] == e[1..] + t;
      DigitsEnd(d[1..], s, e[1..], t);
      assert d == [d[0]] + d[1..] && e == [e[0]] + e[1..];
    }
  }

  // ---------- rewriting ----------

  /** split(p).join(r): every occurrence of a text replaced, from the left. */
  function ReplaceText(s: string, p: string, r: string): string
    requires p != ""
    decreases |s|
  {
    if s == "" then ""
    else if p <= s then r + ReplaceText(s[|p|..], p, r)
    else [s[0]] + ReplaceText(s[1..], p, r)
  }

  function Replacement(ref: Reference, destinations: map<string, Destination>): string {
    var marks := ReferenceMarks(ref.placeholder);
    if ref.placeholder in destinations then
      var d := destinations[ref.placeholder];
      MarkdownLink(if d.text.Some? then d.text.value else ref.fallbackText, d.url, marks, d.embed)
    else if ref.originalUrl.Some? && ref.originalUrl.value != "" then
      MarkdownLink(ref.fallbackText, ref.originalUrl.value, marks, false)
    else MarkedText(ref.fallbackText, marks)
  }

  /** rewriteJiraReferences: one reference after the other, each over the whole text. */
  function Rewrite(markdown: string, refs: seq<Reference>, destinations: map<string, Destination>): string
    requires forall i | 0 <= i < |refs| :: refs[i].placeholder != ""
    decreases |refs|
  {
    if refs == [] then markdown
    else
      Rewrite(ReplaceText(markdown, refs[0].placeholder, Replacement(refs[0], destinations)), refs[1..], destinations)
  }

  /** The placeholder that begins a text: up to the first closing character. */
  function FirstMark(s: string): string {
    var n := Upto(s, CLOSE);
    if n < |s| then s[..n + 1] else s
  }

  /** All placeholders at once: one pass over the text, looking each one up. */
  function Substitute(s: string, table: map<string, string>): (t: string)
    decreases |s|
  {
    if s == "" then ""
    else if s[0] == OPEN then
      var m := FirstMark(s);
      (if m in table then table[m] else m) + Substitute(s[|m|..], table)
    else [s[0]] + Substitute(s[1..], table)
  }

  function TableOf(refs: seq<Reference>, destinations: map<string, Destination>): map<string, string>
    decreases |refs|
  {
    if refs == [] then map[]
    else TableOf(refs[1..], destinations)[refs[0].placeholder := Replacement(refs[0], destinations)]
  }

  lemma FirstMarkIs(m: string, rest: string)
    requires IsMark(m)
    ensures FirstMark(m + rest) == m
  {
    var s := m + rest;
    assert CLOSE !in s[..|m| - 1] && s[|m| - 1] == CLOSE;
    UptoIs(s, CLOSE, |m| - 1);
    assert s[..|m|] == m;
  }

  lemma SubstituteMark(m: string, rest: string, table: map<string, string>)
    requires IsMark(m)
    ensures Substitute(m + rest, table) == (if m in table then table[m] else m) + Substitute(rest, table)
  {
    FirstMarkIs(m, rest);
    assert (m + rest)[|m|..] == rest;
  }

  lemma {:induction false} SubstitutePlain(a: string, rest: string, table: map<string, string>)
    requires Plain(a)
    ensures Substitute(a + rest, table) == a + Substitute(rest, table)
  {
    if a == "" {
      assert a + rest == rest;
    } else {
      assert (a + rest)[1..] == a[1..] + rest;
      SubstitutePlain(a[1..], rest, table);
    }
  }

  lemma {:induction false} ReplaceSkips(a: string, rest: string, p: string, r: string)
    requires IsMark(p) && OPEN !in a
    ensures ReplaceText(a + rest, p, r) == a + ReplaceText(rest, p, r)
  {
    if a == "" {
      assert a + rest == rest;
    } else {
      assert (a + rest)[1..] == a[1..] + rest && (a + rest)[0] == a[0];
      assert !(p <= a + rest);
      ReplaceSkips(a[1..], rest, p, r);
    }
  }

  lemma ReplaceMark(m: string, rest: string, p: string, r: string)
    requires IsMark(m) && IsMark(p)
    ensures ReplaceText(m + rest, p, r) == (if m == p then r else m) + ReplaceText(rest, p, r)
  {
    var s := m + rest;
    FirstMarkIs(m, rest);
    if p <= s {
      assert s == p + s[|p|..];
      FirstMarkIs(p, s[|p|..]);
      assert m == p && s[|m|..] == rest;
    } else {
      assert m != p;
      assert s[0] == m[0] && s[1..] == m[1..] + rest;
      ReplaceSkips(m[1..], rest, p, r);
      assert [m[0]] + (m[1..] + ReplaceText(rest, p, r)) == m + ReplaceText(rest, p, r);
    }
  }

  /** What is left of the placeholders when one of them is replaced. */
  function Others(marks: seq<string>, p: string): seq<string> {
    if marks == [] then [] else (if marks[0] == p then [] else [marks[0]]) + Others(marks[1..], p)
  }

  /** Replacing one placeholder everywhere is substituting it. */
  lemma {:induction false} ReplaceIsSubstitute(s: string, marks: seq<string>, p: string, r: string)
    requires Carries(s, marks) && IsMark(p) && Plain(r)
    ensures ReplaceText(s, p, r) == Substitute(s, map[p := r])
    ensures Carries(ReplaceText(s, p, r), Others(marks, p))
    decreases |s|
  {
    if s == "" {
    } else if s[0] == OPEN {
      var m := marks[0];
      var rest := s[|m|..];
      assert s == m + rest;
      ReplaceIsSubstitute(rest, marks[1..], p, r);
      ReplaceMark(m, rest, p, r);
      SubstituteMark(m, rest, map[p := r]);
      PlainCarriesNothing(r);
      MarkCarriesItself(m);
      CarriesConcat(if m == p then r else m, ReplaceText(rest, p, r), if m == p then [] else [m], Others(marks[1..], p));
    } else {
      ReplaceIsSubstitute(s[1..], marks, p, r);
      assert !(p <= s);
      assert ([s[0]] + ReplaceText(s[1..], p, r))[1..] == ReplaceText(s[1..], p, r);
    }
  }

  /** Substituting one placeholder first and the rest afterwards is substituting them all. */
  lemma {:induction false} SubstituteTwice(s: string, marks: seq<string>, p: string, r: string, table: map<string, string>)
    requires Carries(s, marks) && IsMark(p) && Plain(r)
    ensures Substitute(Substitute(s, map[p := r]), table) == Substitute(s, table[p := r])
    decreases |s|
  {
    if s == "" {
    } else if s[0] == OPEN {
      var m := marks[0];
      var rest := s[|m|..];
      assert s == m + rest;
      SubstituteTwice(rest, marks[1..], p, r, table);
      SubstituteMark(m, rest, map[p := r]);
      SubstituteMark(m, rest, table[p := r]);
      if m == p {
        SubstitutePlain(r, Substitute(rest, map[p := r]), table);
      } else {
        SubstituteMark(m, Substitute(rest, map[p := r]), table);
      }
    } else {
      SubstituteTwice(s[1..], marks, p, r, table);
      SubstitutePlain([s[0]], Substitute(s[1..], map[p := r]), table);
      assert Substitute(s, map[p := r]) == [s[0]] + Substitute(s[1..], map[p := r]);
    }
  }

  lemma {:induction false} NothingToSubstitute(s: string, marks: seq<string>)
    requires Carries(s, marks)
    ensures Substitute(s, map[]) == s
    decreases |s|
  {
    if s == "" {
    } else if s[0] == OPEN {
      var m := marks[0];
      assert s == m + s[|m|..];
      SubstituteMark(m, s[|m|..], map[]);
      NothingToSubstitute(s[|m|..], marks[1..]);
    } else {
      NothingToSubstitute(s[1..], marks);
      assert s == [s[0]] + s[1..];
    }
  }

  // ---------- replacements are plain ----------

  lemma {:induction false} PerCharPlain(s: string, f: char -> string)
    requires Plain(s) && forall c | c != OPEN && c != CLOSE :: Plain(f(c))
    ensures Plain(PerChar(s, f))
  {
    if s != "" {
      PerCharPlain(s[1..], f);
    }
  }

  lemma MarkedTextPlain(text: string, marks: seq<TextMark>)
    requires Plain(text)
    ensures Plain(MarkedText(text, marks))
  {
    EscapeTextIsOnePass(text);
    PerCharPlain(text, EscapeChar);
    WrapPlain(if Code in marks then InlineCode(text) else EscapeText(text), marks);
  }

  lemma {:induction false} WrapPlain(s: string, marks: seq<TextMark>)
    requires Plain(s)
    ensures Plain(Wrap(s, marks))
    decreases |marks|
  {
    if marks != [] {
      WrapPlain("**" + s + "**", marks[1..]);
      WrapPlain("*" + s + "*", marks[1..]);
      WrapPlain("~~" + s + "~~", marks[1..]);
      WrapPlain(s, marks[1..]);
    }
  }

  predicate PlainReference(ref: Reference) {
    IsMark(ref.placeholder) && Plain(ref.fallbackText) && (ref.originalUrl.Some? ==> Plain(ref.originalUrl.value))
  }

  predicate PlainDestination(d: Destination) {
    Plain(d.url) && (d.text.Some? ==> Plain(d.text.value))
  }

  lemma LinkPlain(text: string, url: string, marks: seq<TextMark>, embed: bool)
    requires Plain(text) && Plain(url)
    ensures Plain(MarkdownLink(text, url, marks, embed))
  {
    MarkedTextPlain(text, marks);
    PerCharPlain(url, EscapeUrlChar);
    hide MarkedText, EscapeUrlChar;
  }

  lemma ReplacementPlain(ref: Reference, destinations: map<string, Destination>)
    requires PlainReference(ref) && forall p | p in destinations :: PlainDestination(destinations[p])
    ensures Plain(Replacement(ref, destinations))
  {
    var marks := ReferenceMarks(ref.placeholder);
    MarkedTextPlain(ref.fallbackText, marks);
    if ref.placeholder in destinations {
      var d := destinations[ref.placeholder];
      LinkPlain(if d.text.Some? then d.text.value else ref.fallbackText, d.url, marks, d.embed);
    } else if ref.originalUrl.Some? {
      LinkPlain(ref.fallbackText, ref.originalUrl.value, marks, false);
    }
  }

  /** Rewriting the references one after the other is one simultaneous substitution, for
      sources and destinations that contain neither delimiter. */
  lemma {:induction false} RewriteIsSubstitution(
      s: string, marks: seq<string>, refs: seq<Reference>, destinations: map<string, Destination>)
    requires Carries(s, marks)
    requires forall i | 0 <= i < |refs| :: refs[i].placeholder != "" && PlainReference(refs[i])
    requires forall p | p in destinations :: PlainDestination(destinations[p])
    ensures Rewrite(s, refs, destinations) == Substitute(s, TableOf(refs, destinations))
    decreases |refs|
  {
    if refs == [] {
      NothingToSubstitute(s, marks);
    } else {
      var p, r := refs[0].placeholder, Replacement(refs[0], destinations);
      ReplacementPlain(refs[0], destinations);
      hide Replacement, Plain;
      ReplaceIsSubstitute(s, marks, p, r);
      RewriteIsSubstitution(ReplaceText(s, p, r), Others(marks, p), refs[1..], destinations);
      SubstituteTwice(s, marks, p, r, TableOf(refs[1..], destinations));
    }
  }
}
