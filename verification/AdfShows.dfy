/** What it means that a piece of Markdown shows a text: all of its characters in their order,
    and besides them only white space, backslashes and, loosely, line breaks of table cells. */
module AdfShows {
  import opened AdfText
  import opened AdfReferences

  predicate Spacing(c: char) { IsSpace(c) || c == '\\' }

  /** Loosely, white space of the text may be missing; otherwise every character stands there,
      a space perhaps as %20. */
  ghost predicate Shows(s: string, t: string, loosely: bool)
    decreases |s| + |t|
  {
    || (s == "" && t == "")
    || (s != "" && t != "" && s[0] == t[0] && Shows(s[1..], t[1..], loosely))
    || (s != "" && Spacing(s[0]) && Shows(s[1..], t, loosely))
    || (t != "" && t[0] == ' ' && "%20" <= s && Shows(s[3..], t[1..], loosely))
    || (loosely && "<br>" <= s && Shows(s[4..], t, loosely))
    || (loosely && t != "" && IsSpace(t[0]) && Shows(s, t[1..], loosely))
  }

  /** The ways in which a text can go on being shown, one step each. */
  lemma ShowsMore(s: string, t: string, c: char, loosely: bool)
    requires Shows(s, t, loosely)
    ensures Shows([c] + s, [c] + t, loosely)
    ensures Spacing(c) ==> Shows([c] + s, t, loosely)
    ensures Shows("%20" + s, " " + t, loosely)
    ensures loosely ==> Shows("<br>" + s, t, loosely)
    ensures loosely && IsSpace(c) ==> Shows(s, [c] + t, loosely)
  {
    assert ([c] + s)[1..] == s && ([c] + t)[1..] == t && (" " + t)[1..] == t;
    assert ("%20" + s)[3..] == s && ("<br>" + s)[4..] == s;
  }

  lemma CutConcat(a: string, b: string, k: nat)
    requires k <= |a|
    ensures a + b == a[..k] + (a[k..] + b)
  {
  }

  lemma {:induction false} ShowsConcat(a: string, b: string, t: string, u: string, loosely: bool)
    requires Shows(a, t, loosely) && Shows(b, u, loosely)
    ensures Shows(a + b, t + u, loosely)
    decreases |a| + |t|
  {
    if a == "" && t == "" {
      assert a + b == b && t + u == u;
    } else if a != "" && t != "" && a[0] == t[0] && Shows(a[1..], t[1..], loosely) {
      ShowsConcat(a[1..], b, t[1..], u, loosely);
      hide Shows;
      CutConcat(a, b, 1);
      CutConcat(t, u, 1);
      ShowsMore(a[1..] + b, t[1..] + u, a[0], loosely);
    } else if a != "" && Spacing(a[0]) && Shows(a[1..], t, loosely) {
      ShowsConcat(a[1..], b, t, u, loosely);
      hide Shows;
      CutConcat(a, b, 1);
      ShowsMore(a[1..] + b, t + u, a[0], loosely);
    } else if t != "" && t[0] == ' ' && "%20" <= a && Shows(a[3..], t[1..], loosely) {
      ShowsConcat(a[3..], b, t[1..], u, loosely);
      hide Shows;
      CutConcat(a, b, 3);
      CutConcat(t, u, 1);
      ShowsMore(a[3..] + b, t[1..] + u, ' ', loosely);
    } else if loosely && "<br>" <= a && Shows(a[4..], t, loosely) {
      ShowsConcat(a[4..], b, t, u, loosely);
      hide Shows;
      CutConcat(a, b, 4);
      ShowsMore(a[4..] + b, t + u, ' ', loosely);
    } else {
      ShowsConcat(a, b, t[1..], u, loosely);
      hide Shows;
      CutConcat(t, u, 1);
      ShowsMore(a + b, t[1..] + u, t[0], loosely);
    }
  }

  lemma {:induction false} ShowsItself(s: string, loosely: bool)
    ensures Shows(s, s, loosely)
  {
    if s != "" {
      ShowsItself(s[1..], loosely);
    }
  }

  lemma {:induction false} ShowsLoosely(s: string, t: string)
    requires Shows(s, t, false)
    ensures Shows(s, t, true)
    decreases |s| + |t|
  {
    if s == "" && t == "" {
    } else if s != "" && t != "" && s[0] == t[0] && Shows(s[1..], t[1..], false) {
      ShowsLoosely(s[1..], t[1..]);
    } else if s != "" && Spacing(s[0]) && Shows(s[1..], t, false) {
      ShowsLoosely(s[1..], t);
    } else {
      ShowsLoosely(s[3..], t[1..]);
    }
  }

  lemma {:induction false} SpacingShowsNothing(s: string, loosely: bool)
    requires forall i | 0 <= i < |s| :: Spacing(s[i])
    ensures Shows(s, "", loosely)
  {
    if s != "" {
      SpacingShowsNothing(s[1..], loosely);
    }
  }

  lemma {:induction false} TrimStartShows(s: string, t: string)
    requires s != "" && IsSpace(s[0]) && Shows(s, t, true)
    ensures Shows(s[1..], t, true)
    decreases |t|
  {
    if s != "" && t != "" && s[0] == t[0] && Shows(s[1..], t[1..], true) {
    } else if Spacing(s[0]) && Shows(s[1..], t, true) {
    } else {
      TrimStartShows(s, t[1..]);
    }
  }

  lemma CutFront(s: string, k: nat)
    requires k < |s|
    ensures s[k..] != "" && s[k..][|s[k..]| - 1] == s[|s| - 1]
    ensures s[..|s| - 1] == s[..k] + s[k..][..|s[k..]| - 1]
  {
  }

  lemma LongerThan(word: string, s: string)
    requires word <= s && s != "" && word != "" && IsSpace(s[|s| - 1]) && !IsSpace(word[|word| - 1])
    ensures |word| < |s|
  {
  }

  lemma {:induction false} TrimEndShows(s: string, t: string)
    requires s != "" && IsSpace(s[|s| - 1]) && Shows(s, t, true)
    ensures Shows(s[..|s| - 1], t, true)
    decreases |s| + |t|
  {
    hide IsSpace;
    if |s| == 1 {
      TrimStartShows(s, t);
      assert s[..|s| - 1] == s[1..];
    } else if t != "" && s[0] == t[0] && Shows(s[1..], t[1..], true) {
      CutFront(s, 1);
      TrimEndShows(s[1..], t[1..]);
      hide Shows;
      ShowsMore(s[1..][..|s[1..]| - 1], t[1..], s[0], true);
      assert [s[0]] == s[..1] && [t[0]] + t[1..] == t;
    } else if Spacing(s[0]) && Shows(s[1..], t, true) {
      CutFront(s, 1);
      TrimEndShows(s[1..], t);
      hide Shows;
      ShowsMore(s[1..][..|s[1..]| - 1], t, s[0], true);
      assert [s[0]] == s[..1];
    } else if t != "" && t[0] == ' ' && "%20" <= s && Shows(s[3..], t[1..], true) {
      TrimEndBlank(s, t);
    } else if "<br>" <= s && Shows(s[4..], t, true) {
      TrimEndBreak(s, t);
    } else {
      TrimEndShows(s, t[1..]);
      hide Shows;
      ShowsMore(s[..|s| - 1], t[1..], t[0], true);
      assert [t[0]] + t[1..] == t;
    }
  }

  lemma {:induction false} TrimEndBlank(s: string, t: string)
    requires s != "" && IsSpace(s[|s| - 1])
    requires t != "" && t[0] == ' ' && "%20" <= s && Shows(s[3..], t[1..], true)
    ensures Shows(s[..|s| - 1], t, true)
    decreases |s| + |t|, 0
  {
    hide Shows;
    LongerThan("%20", s);
    CutFront(s, 3);
    TrimEndShows(s[3..], t[1..]);
    ShowsMore(s[3..][..|s[3..]| - 1], t[1..], ' ', true);
    assert " " + t[1..] == t && s[..3] == "%20";
  }

  lemma {:induction false} TrimEndBreak(s: string, t: string)
    requires s != "" && IsSpace(s[|s| - 1]) && "<br>" <= s && Shows(s[4..], t, true)
    ensures Shows(s[..|s| - 1], t, true)
    decreases |s| + |t|, 0
  {
    hide Shows;
    LongerThan("<br>", s);
    CutFront(s, 4);
    TrimEndShows(s[4..], t);
    ShowsMore(s[4..][..|s[4..]| - 1], t, ' ', true);
    assert s[..4] == "<br>";
  }

  /** A rewrite of line endings and bars that shows what was there before. */
  ghost predicate KeepsShown(f: char -> string) {
    && (forall c | c != '\n' && c != '|' :: f(c) == [c])
    && (f('|') == "|" || f('|') == "\\|")
    && (f('\n') == "<br>" || (f('\n') != "" && f('\n')[0] == '\n' && forall i | 0 <= i < |f('\n')| :: IsSpace(f('\n')[i])))
  }

  lemma RewrittenChar(c: char, f: char -> string)
    requires KeepsShown(f)
    ensures Shows(f(c), [c], true)
    ensures Spacing(c) ==> Shows(f(c), "", true)
  {
    if c == '\n' {
      if f(c) == "<br>" {
        assert f(c)[4..] == "" && [c][1..] == "";
        assert Shows("", "", true) && Shows("<br>"[4..], "", true);
        assert Shows("<br>", "", true);
      } else {
        SpacingShowsNothing(f(c), true);
      }
      assert Shows(f(c), [c][1..], true);
    } else if c == '|' {
      ShowsItself("|", true);
      assert "\\|"[1..] == "|";
    } else {
      ShowsItself([c], true);
      if Spacing(c) {
        SpacingShowsNothing([c], true);
      }
    }
  }

  lemma PerCharWord(word: string, s: string, f: char -> string)
    requires KeepsShown(f) && word <= s && forall i | 0 <= i < |word| :: word[i] != '\n' && word[i] != '|'
    ensures PerChar(s, f) == word + PerChar(s[|word|..], f)
    decreases |word|
  {
    if word != "" {
      assert word == [word[0]] + word[1..] && s[0] == word[0] && word[1..] <= s[1..];
      PerCharWord(word[1..], s[1..], f);
      assert s[1..][|word[1..]|..] == s[|word|..];
    }
  }

  lemma {:induction false} PerCharShows(s: string, t: string, f: char -> string)
    requires KeepsShown(f) && Shows(s, t, true)
    ensures Shows(PerChar(s, f), t, true)
    decreases |s| + |t|
  {
    if s == "" && t == "" {
    } else if s != "" && t != "" && s[0] == t[0] && Shows(s[1..], t[1..], true) {
      PerCharShows(s[1..], t[1..], f);
      RewrittenChar(s[0], f);
      ShowsConcat(f(s[0]), PerChar(s[1..], f), [t[0]], t[1..], true);
      assert [t[0]] + t[1..] == t;
    } else if s != "" && Spacing(s[0]) && Shows(s[1..], t, true) {
      PerCharShows(s[1..], t, f);
      RewrittenChar(s[0], f);
      ShowsConcat(f(s[0]), PerChar(s[1..], f), "", t, true);
      assert "" + t == t;
    } else if t != "" && t[0] == ' ' && "%20" <= s && Shows(s[3..], t[1..], true) {
      PerCharShows(s[3..], t[1..], f);
      PerCharWord("%20", s, f);
      assert PerChar(s, f)[3..] == PerChar(s[3..], f);
    } else if "<br>" <= s && Shows(s[4..], t, true) {
      PerCharShows(s[4..], t, f);
      PerCharWord("<br>", s, f);
      assert PerChar(s, f)[4..] == PerChar(s[4..], f);
    } else {
      PerCharShows(s, t[1..], f);
    }
  }

  // ---------- text in its marks ----------

  lemma {:induction false} EscapedShows(text: string)
    ensures Shows(PerChar(text, EscapeChar), text, false)
  {
    if text != "" {
      EscapedShows(text[1..]);
      var head := EscapeChar(text[0]);
      ShowsItself([text[0]], false);
      if Special(text[0]) {
        assert head[1..] == [text[0]];
      }
      ShowsConcat(head, PerChar(text[1..], EscapeChar), [text[0]], text[1..], false);
      assert [text[0]] + text[1..] == text;
    }
  }

  lemma {:induction false} UrlShows(url: string)
    ensures Shows(EscapeUrl(url), url, false)
  {
    if url != "" {
      UrlShows(url[1..]);
      var head := EscapeUrlChar(url[0]);
      ShowsItself([url[0]], false);
      if url[0] == ' ' {
        assert "%20"[3..] == "" && [url[0]][1..] == "";
      } else if |head| == 2 {
        assert head[1..] == [url[0]];
      }
      ShowsConcat(head, PerChar(url[1..], EscapeUrlChar), [url[0]], url[1..], false);
      assert [url[0]] + url[1..] == url;
    }
  }

  function Delimiter(mark: TextMark): string {
    match mark
    case Strong => "**"
    case Em => "*"
    case Strike => "~~"
    case Code => ""
  }

  /** The last mark opens first. */
  function Opening(marks: seq<TextMark>): string {
    if marks == [] then "" else Opening(marks[1..]) + Delimiter(marks[0])
  }

  function Closing(marks: seq<TextMark>): string {
    if marks == [] then "" else Delimiter(marks[0]) + Closing(marks[1..])
  }

  /** A text within its marks, with backticks around it if one of them is code. */
  function InMarks(text: string, marks: seq<TextMark>): string {
    var ticks := if Code in marks then Repeat('`', LongestRun(text, '`') + 1) else "";
    Opening(marks) + (ticks + text + ticks) + Closing(marks)
  }

  lemma ShowsAround(before: string, s: string, after: string, t: string, loosely: bool)
    requires Shows(s, t, loosely)
    ensures Shows(before + s + after, before + t + after, loosely)
  {
    ShowsItself(before, loosely);
    ShowsItself(after, loosely);
    ShowsConcat(before, s, before, t, loosely);
    ShowsConcat(before + s, after, before + t, after, loosely);
  }

  lemma {:induction false} WrapShows(s: string, t: string, marks: seq<TextMark>)
    requires Shows(s, t, false)
    ensures Shows(Wrap(s, marks), Opening(marks) + t + Closing(marks), false)
    decreases |marks|
  {
    hide Shows;
    if marks == [] {
      assert "" + t + "" == t;
    } else {
      var d := Delimiter(marks[0]);
      ShowsAround(d, s, d, t, false);
      WrapShows(d + s + d, d + t + d, marks[1..]);
      WrapFirst(s, marks);
      hide *;
      assert Opening(marks[1..]) + (d + t + d) + Closing(marks[1..])
          == (Opening(marks[1..]) + d) + t + (d + Closing(marks[1..]));
      OuterFirst(marks);
    }
  }

  lemma WrapFirst(s: string, marks: seq<TextMark>)
    requires marks != []
    ensures var d := Delimiter(marks[0]); Wrap(s, marks) == Wrap(d + s + d, marks[1..])
  {
    assert "" + s + "" == s;
  }

  lemma OuterFirst(marks: seq<TextMark>)
    requires marks != []
    ensures Opening(marks) == Opening(marks[1..]) + Delimiter(marks[0])
    ensures Closing(marks) == Delimiter(marks[0]) + Closing(marks[1..])
  {
  }

  lemma PaddedShows(text: string)
    ensures Shows(Padded(text), text, false)
  {
    ShowsItself(text, false);
    if Padded(text) != text {
      SpacingShowsNothing(" ", false);
      ShowsConcat(" ", text, "", text, false);
      ShowsConcat(" " + text, " ", text, "", false);
      assert "" + text == text && text + "" == text;
    }
  }

  lemma MarkedTextShows(text: string, marks: seq<TextMark>)
    ensures Shows(MarkedText(text, marks), InMarks(text, marks), false)
  {
    if Code in marks {
      var fence := Repeat('`', LongestRun(text, '`') + 1);
      PaddedShows(text);
      ShowsAround(fence, Padded(text), fence, text, false);
      WrapShows(InlineCode(text), fence + text + fence, marks);
    } else {
      EscapeTextIsOnePass(text);
      EscapedShows(text);
      WrapShows(EscapeText(text), text, marks);
      assert "" + text + "" == text;
    }
  }

  lemma LinkShows(text: string, url: string, marks: seq<TextMark>)
    ensures Shows("[" + MarkedText(text, marks) + "](" + EscapeUrl(url) + ")", "[" + InMarks(text, marks) + "](" + url + ")", false)
  {
    MarkedTextShows(text, marks);
    UrlShows(url);
    hide Shows, MarkedText, InMarks, EscapeUrl;
    ShowsAround("[", MarkedText(text, marks), "](", InMarks(text, marks), false);
    ShowsAround("", EscapeUrl(url), ")", url, false);
    ShowsConcat("[" + MarkedText(text, marks) + "](", "" + EscapeUrl(url) + ")",
                "[" + InMarks(text, marks) + "](", "" + url + ")", false);
    assert "" + EscapeUrl(url) == EscapeUrl(url) && "" + url == url;
    assert "[" + MarkedText(text, marks) + "](" + (EscapeUrl(url) + ")") == "[" + MarkedText(text, marks) + "](" + EscapeUrl(url) + ")";
    assert "[" + InMarks(text, marks) + "](" + (url + ")") == "[" + InMarks(text, marks) + "](" + url + ")";
  }

  lemma WithoutLastNewlineShows(text: string)
    ensures Shows(WithoutLastNewline(text), text, true)
  {
    ShowsItself(text, true);
    if WithoutLastNewline(text) != text {
      TrimEndShows(text, text);
    }
  }

  /** Fences, language and text, in this order. */
  lemma CodeBlockShows(language: string, text: string)
    ensures Shows(CodeBlock(language, text), Fence(text) + language + text + Fence(text), true)
  {
    WithoutLastNewlineShows(text);
    SpacingShowsNothing("\n", true);
    var fence, body := Fence(text), WithoutLastNewline(text);
    ShowsItself(fence + language, true);
    ShowsItself(fence, true);
    hide Shows, Fence, WithoutLastNewline;
    ShowsConcat(fence + language, "\n", fence + language, "", true);
    ShowsConcat(fence + language + "\n", body, fence + language + "", text, true);
    ShowsConcat(fence + language + "\n" + body, "\n", fence + language + "" + text, "", true);
    ShowsConcat(fence + language + "\n" + body + "\n", fence, fence + language + "" + text + "", fence, true);
    assert fence + language + "" + text + "" + fence == fence + language + text + fence;
  }
}
