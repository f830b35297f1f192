/** How Adf.ts prints text: escaping, inline code and code blocks, and how CommonMark 0.31.2
    reads them back (sections 2.4, 4.5 and 6.1). */
module AdfText {
  import opened Wrappers

  // ---------- replacing characters ----------

  /** Every occurrence of one character replaced: replaceAll with a one-character pattern. */
  function ReplaceAll(s: string, c: char, new_: string): string {
    if s == "" then ""
    else (if s[0] == c then new_ else [s[0]]) + ReplaceAll(s[1..], c, new_)
  }

  function PerChar(s: string, f: char -> string): string {
    if s == "" then "" else f(s[0]) + PerChar(s[1..], f)
  }

  lemma {:induction false} PerCharConcat(a: string, b: string, f: char -> string)
    ensures PerChar(a + b, f) == PerChar(a, f) + PerChar(b, f)
  {
    if a == "" {
      assert a + b == b;
    } else {
      assert (a + b)[1..] == a[1..] + b;
      PerCharConcat(a[1..], b, f);
    }
  }

  /** escapeText: six passes over the text, the backslash first. */
  function EscapeText(text: string): string {
    var a := ReplaceAll(text, '\\', "\\\\");
    var b := ReplaceAll(a, '*', "\\*");
    var c := ReplaceAll(b, '_', "\\_");
    var d := ReplaceAll(c, '~', "\\~");
    var e := ReplaceAll(d, '[', "\\[");
    ReplaceAll(e, ']', "\\]")
  }

  predicate Special(c: char) { c in {'\\', '*', '_', '~', '[', ']'} }

  function EscapeChar(c: char): string { if Special(c) then ['\\', c] else [c] }

  /** One pass that escapes the given characters. */
  function Escaping(s: string, specials: set<char>): string {
    if s == "" then "" else (if s[0] in specials then ['\\', s[0]] else [s[0]]) + Escaping(s[1..], specials)
  }

  lemma {:induction false} ReplaceAllConcat(a: string, b: string, c: char, new_: string)
    ensures ReplaceAll(a + b, c, new_) == ReplaceAll(a, c, new_) + ReplaceAll(b, c, new_)
  {
    if a == "" {
      assert a + b == b;
    } else {
      assert (a + b)[1..] == a[1..] + b;
      ReplaceAllConcat(a[1..], b, c, new_);
    }
  }

  /** A further pass escapes one more character, provided it is not the backslash that the
      passes before it have written. */
  lemma {:induction false} OneMorePass(s: string, specials: set<char>, c: char)
    requires c !in specials && c != '\\'
    ensures ReplaceAll(Escaping(s, specials), c, ['\\', c]) == Escaping(s, specials + {c})
  {
    if s != "" {
      OneMorePass(s[1..], specials, c);
      var head := if s[0] in specials then ['\\', s[0]] else [s[0]];
      ReplaceAllConcat(head, Escaping(s[1..], specials), c, ['\\', c]);
      assert ReplaceAll([s[0]], c, ['\\', c]) == if s[0] == c then ['\\', c] else [s[0]];
      if s[0] in specials {
        assert head[1..] == [s[0]];
        assert ReplaceAll(head, c, ['\\', c]) == head;
      }
    }
  }

  lemma {:induction false} FirstPass(s: string)
    ensures ReplaceAll(s, '\\', "\\\\") == Escaping(s, {'\\'})
  {
    if s != "" {
      FirstPass(s[1..]);
    }
  }

  lemma {:induction false} EscapingIsPerChar(s: string)
    ensures Escaping(s, {'\\', '*', '_', '~', '[', ']'}) == PerChar(s, EscapeChar)
  {
    if s != "" {
      EscapingIsPerChar(s[1..]);
    }
  }

  /** The six passes are one pass: no pass touches what an earlier one has written. */
  lemma EscapeTextIsOnePass(text: string)
    ensures EscapeText(text) == PerChar(text, EscapeChar)
  {
    FirstPass(text);
    OneMorePass(text, {'\\'}, '*');
    OneMorePass(text, {'\\', '*'}, '_');
    OneMorePass(text, {'\\', '*', '_'}, '~');
    OneMorePass(text, {'\\', '*', '_', '~'}, '[');
    OneMorePass(text, {'\\', '*', '_', '~', '['}, ']');
    assert {'\\'} + {'*'} == {'\\', '*'} && {'\\', '*'} + {'_'} == {'\\', '*', '_'};
    assert {'\\', '*', '_'} + {'~'} == {'\\', '*', '_', '~'} && {'\\', '*', '_', '~'} + {'['} == {'\\', '*', '_', '~', '['};
    assert {'\\', '*', '_', '~', '['} + {']'} == {'\\', '*', '_', '~', '[', ']'};
    EscapingIsPerChar(text);
  }

  /** Reading backslash escapes of these characters (CommonMark, section 2.4). */
  function Unescape(s: string): string
    decreases |s|
  {
    if s == "" then ""
    else if s[0] == '\\' && |s| > 1 && Special(s[1]) then [s[1]] + Unescape(s[2..])
    else [s[0]] + Unescape(s[1..])
  }

  lemma {:induction false} UnescapePerChar(text: string)
    ensures Unescape(PerChar(text, EscapeChar)) == text
  {
    if text != "" {
      UnescapePerChar(text[1..]);
      var s := PerChar(text, EscapeChar);
      if Special(text[0]) {
        assert s[0] == '\\' && s[1] == text[0] && s[2..] == PerChar(text[1..], EscapeChar);
      } else {
        assert s[0] == text[0] && s[1..] == PerChar(text[1..], EscapeChar);
      }
      assert text == [text[0]] + text[1..];
    }
  }

  /** Escaping is undone exactly. */
  lemma EscapeRoundTrip(text: string)
    ensures Unescape(EscapeText(text)) == text
  {
    EscapeTextIsOnePass(text);
    UnescapePerChar(text);
  }

  // ---------- runs of a character ----------

  ghost predicate RunAt(s: string, c: char, i: int, k: int) {
    0 <= i && 0 <= k && i + k <= |s| && forall j | i <= j < i + k :: s[j] == c
  }

  /** The length of the run that ends a text. */
  function LastRun(s: string, c: char): (k: nat)
    ensures k <= |s|
  {
    if s != "" && s[|s| - 1] == c then 1 + LastRun(s[..|s| - 1], c) else 0
  }

  function LongestRun(s: string, c: char): nat {
    if s == "" then 0
    else
      var before := LongestRun(s[..|s| - 1], c);
      if LastRun(s, c) > before then LastRun(s, c) else before
  }

  method LongestRunOf(value: string, character: char) returns (longest: nat)
    ensures longest == LongestRun(value, character)
  {
    longest := 0;
    var current := 0;
    for i := 0 to |value|
      invariant longest == LongestRun(value[..i], character) && current == LastRun(value[..i], character)
    {
      assert value[..i + 1][..i] == value[..i];
      current := if value[i] == character then current + 1 else 0;
      longest := if longest >= current then longest else current;
    }
    assert value[..|value|] == value;
  }

  lemma {:induction false} LastRunIsRun(s: string, c: char)
    ensures RunAt(s, c, |s| - LastRun(s, c), LastRun(s, c))
    ensures forall i, k | RunAt(s, c, i, k) && i + k == |s| :: k <= LastRun(s, c)
  {
    if s != "" && s[|s| - 1] == c {
      var front := s[..|s| - 1];
      LastRunIsRun(front, c);
      forall i, k | RunAt(s, c, i, k) && i + k == |s| ensures k <= LastRun(s, c) {
        if k > 0 {
          assert RunAt(front, c, i, k - 1);
        }
      }
    } else {
      forall i, k | RunAt(s, c, i, k) && i + k == |s| ensures k <= 0 {
        assert s == "" || s[|s| - 1] != c;
      }
    }
  }

  /** The longest run occurs, and no run is longer. */
  lemma {:induction false} LongestRunIsLongest(s: string, c: char)
    ensures exists i :: RunAt(s, c, i, LongestRun(s, c))
    ensures forall i, k | RunAt(s, c, i, k) :: k <= LongestRun(s, c)
  {
    if s == "" {
      assert RunAt(s, c, 0, LongestRun(s, c));
    } else {
      var front := s[..|s| - 1];
      LongestRunIsLongest(front, c);
      LastRunIsRun(s, c);
      var j :| RunAt(front, c, j, LongestRun(front, c));
      assert RunAt(s, c, j, LongestRun(front, c));
      assert RunAt(s, c, if LastRun(s, c) > LongestRun(front, c) then |s| - LastRun(s, c) else j, LongestRun(s, c));
      forall i, k | RunAt(s, c, i, k) ensures k <= LongestRun(s, c) {
        if i + k < |s| {
          assert RunAt(front, c, i, k);
        }
      }
    }
  }

  function Repeat(c: char, n: nat): (s: string)
    ensures |s| == n && forall i | 0 <= i < n :: s[i] == c
  {
    if n == 0 then "" else [c] + Repeat(c, n - 1)
  }

  // ---------- inline code: CommonMark, section 6.1 ----------

  predicate Edge(c: char) { c == '`' || c == ' ' }

  function Padded(text: string): string {
    if text != "" && (Edge(text[0]) || Edge(text[|text| - 1])) then " " + text + " " else text
  }

  function InlineCode(text: string): string {
    var fence := Repeat('`', LongestRun(text, '`') + 1);
    fence + Padded(text) + fence
  }

  /** The length of the backtick string that begins a text. */
  function FirstRun(s: string): (n: nat)
    ensures n <= |s|
    ensures forall i | 0 <= i < n :: s[i] == '`'
    ensures n < |s| ==> s[n] != '`'
  {
    if s != "" && s[0] == '`' then 1 + FirstRun(s[1..]) else 0
  }

  /** What stands before the first backtick string of exactly this length, and what after it. */
  function UntilFence(s: string, n: nat): Option<(string, string)>
    decreases |s|
  {
    if s == "" then None
    else if s[0] == '`' then
      var k := FirstRun(s);
      if k == n then Some(("", s[n..]))
      else match UntilFence(s[k..], n)
           case None => None
           case Some((content, rest)) => Some((s[..k] + content, rest))
    else match UntilFence(s[1..], n)
         case None => None
         case Some((content, rest)) => Some(([s[0]] + content, rest))
  }

  predicate AllSpaces(s: string) { forall i | 0 <= i < |s| :: s[i] == ' ' }

  /** One space is taken off each side, unless the content is nothing but spaces. */
  function Stripped(content: string): string {
    if |content| >= 2 && content[0] == ' ' && content[|content| - 1] == ' ' && !AllSpaces(content)
    then content[1..|content| - 1] else content
  }

  /** Reading a code span without line endings at the start of a text. */
  function ReadInlineCode(s: string): Option<(string, string)> {
    var n := FirstRun(s);
    if n == 0 then None
    else match UntilFence(s[n..], n)
         case None => None
         case Some((content, rest)) => Some((Stripped(content), rest))
  }

  ghost predicate RunsBelow(s: string, n: nat) { forall i, k | RunAt(s, '`', i, k) :: k < n }

  lemma RunsBelowTail(s: string, n: nat, k: nat)
    requires RunsBelow(s, n) && k <= |s|
    ensures RunsBelow(s[k..], n)
  {
    forall i, m | RunAt(s[k..], '`', i, m) ensures m < n {
      assert RunAt(s, '`', i + k, m);
    }
  }

  lemma {:induction false} FenceEnds(content: string, n: nat, rest: string)
    requires n > 0 && RunsBelow(content, n)
    requires content != "" ==> content[|content| - 1] != '`'
    requires rest != "" ==> rest[0] != '`'
    ensures UntilFence(content + Repeat('`', n) + rest, n) == Some((content, rest))
    decreases |content|
  {
    var fence := Repeat('`', n);
    if content == "" {
      assert content + fence + rest == fence + rest;
      FirstRunIs(fence + rest, n);
      assert (fence + rest)[n..] == rest;
    } else {
      var k := if content[0] == '`' then FirstRun(content) else 1;
      assert RunAt(content, '`', 0, FirstRun(content));
      RunsBelowTail(content, n, k);
      hide RunsBelow, RunAt, Repeat, UntilFence;
      FenceEnds(content[k..], n, rest);
      CutText(content, fence, rest, k);
      if content[0] == '`' {
        UntilSkipsRun(content[..k], content[k..] + fence + rest, n);
      } else {
        UntilSkipsChar(content[..k], content[k..] + fence + rest, n);
      }
    }
  }

  lemma CutText(content: string, fence: string, rest: string, k: nat)
    requires k <= |content|
    ensures content + fence + rest == content[..k] + (content[k..] + fence + rest)
    ensures content == content[..k] + content[k..]
  {
  }

  lemma UntilSkipsRun(run: string, s: string, n: nat)
    requires run != "" && |run| != n && (forall i | 0 <= i < |run| :: run[i] == '`')
    requires s != "" && s[0] != '`' && UntilFence(s, n).Some?
    ensures UntilFence(run + s, n) == Some((run + UntilFence(s, n).value.0, UntilFence(s, n).value.1))
  {
    FirstRunIs(run + s, |run|);
    assert (run + s)[|run|..] == s && (run + s)[..|run|] == run;
  }

  lemma UntilSkipsChar(c: string, s: string, n: nat)
    requires |c| == 1 && c[0] != '`' && UntilFence(s, n).Some?
    ensures UntilFence(c + s, n) == Some((c + UntilFence(s, n).value.0, UntilFence(s, n).value.1))
  {
    assert (c + s)[1..] == s && c == [c[0]];
  }

  lemma {:induction false} FirstRunIs(s: string, n: nat)
    requires n <= |s| && (forall i | 0 <= i < n :: s[i] == '`') && (n < |s| ==> s[n] != '`')
    ensures FirstRun(s) == n
  {
    if n > 0 {
      FirstRunIs(s[1..], n - 1);
    }
  }

  lemma PaddedRuns(text: string, i: int, k: int)
    requires RunAt(Padded(text), '`', i, k)
    ensures k <= LongestRun(text, '`')
  {
    LongestRunIsLongest(text, '`');
    var p := Padded(text);
    if p == text || k == 0 {
    } else {
      assert p[0] == ' ' && p[|p| - 1] == ' ';
      assert i > 0 && i + k < |p|;
      assert forall j | 0 <= j < |text| :: p[j + 1] == text[j];
      assert RunAt(text, '`', i - 1, k);
    }
  }

  /** Inline code decodes back to a text without line endings exactly when the text has a
      character other than a space. */
  lemma InlineCodeRoundTripIff(text: string, rest: string)
    requires rest != "" ==> rest[0] != '`'
    requires '\n' !in text && '\r' !in text
    ensures ReadInlineCode(InlineCode(text) + rest) == Some((text, rest)) <==> !AllSpaces(text)
  {
    var n := LongestRun(text, '`') + 1;
    var fence, p := Repeat('`', n), Padded(text);
    var s := InlineCode(text) + rest;
    if text == "" {
      LongestRunIsLongest(text, '`');
      EmptyCode(rest);
    } else {
      assert p != "" && p[0] != '`' && p[|p| - 1] != '`';
      assert s == fence + (p + fence + rest);
      FirstRunIs(s, n);
      assert s[n..] == p + fence + rest;
      forall i, k | RunAt(p, '`', i, k) ensures k < n {
        PaddedRuns(text, i, k);
      }
      FenceEnds(p, n, rest);
      PaddedStrips(text);
    }
  }

  /** A single space is read back as another text. */
  lemma SpaceIsLost()
    ensures ReadInlineCode(InlineCode(" ")) != Some((" ", ""))
  {
    InlineCodeRoundTripIff(" ", "");
    assert InlineCode(" ") + "" == InlineCode(" ");
  }

  lemma EmptyCode(rest: string)
    requires rest != "" ==> rest[0] != '`'
    ensures ReadInlineCode(InlineCode("") + rest) != Some(("", rest))
  {
    var s := InlineCode("") + rest;
    assert Repeat('`', 1) == "`" && InlineCode("") == "``";
    assert s[0] == '`' && s[1] == '`';
    FirstRunIs(s, 2);
    assert s[2..] == rest;
    if rest != "" {
      RestIsShorter(rest, 2);
    }
  }

  lemma {:induction false} RestIsShorter(s: string, n: nat)
    requires n > 0
    ensures UntilFence(s, n).Some? ==> |UntilFence(s, n).value.1| + n <= |s|
    decreases |s|
  {
    if s != "" {
      RestIsShorter(s[1..], n);
      if s[0] == '`' {
        RestIsShorter(s[FirstRun(s)..], n);
      }
    }
  }

  lemma PaddedStrips(text: string)
    requires text != ""
    ensures Stripped(Padded(text)) == text <==> !AllSpaces(text)
  {
    var p := Padded(text);
    if p == text {
      assert text[0] != ' ';
    } else {
      assert p[1..|p| - 1] == text;
      assert forall j | 0 <= j < |text| :: p[j + 1] == text[j];
      if AllSpaces(text) {
        assert AllSpaces(p);
      } else {
        var j :| 0 <= j < |text| && text[j] != ' ';
        assert p[j + 1] != ' ';
      }
    }
  }

  // ---------- code blocks: CommonMark, section 4.5 ----------

  function WithoutLastNewline(text: string): string {
    if text != "" && text[|text| - 1] == '\n' then text[..|text| - 1] else text
  }

  function Fence(text: string): string {
    Repeat('`', if LongestRun(text, '`') + 1 > 3 then LongestRun(text, '`') + 1 else 3)
  }

  function CodeBlock(language: string, text: string): string {
    Fence(text) + language + "\n" + WithoutLastNewline(text) + "\n" + Fence(text)
  }

  /** The fence is longer than every backtick run in the text. */
  lemma FenceIsLonger(text: string)
    ensures |Fence(text)| >= 3 && RunsBelow(text, |Fence(text)|)
  {
    LongestRunIsLongest(text, '`');
  }

  predicate EndsLine(c: char) { c == '\n' || c == '\r' }

  predicate OneLine(s: string) { forall i | 0 <= i < |s| :: !EndsLine(s[i]) }

  function LineLength(s: string): (n: nat)
    ensures n <= |s| && (n < |s| ==> EndsLine(s[n]))
  {
    if s == "" || EndsLine(s[0]) then 0 else 1 + LineLength(s[1..])
  }

  lemma {:induction false} LineIsOne(s: string)
    ensures OneLine(s[..LineLength(s)])
  {
    if s != "" && !EndsLine(s[0]) {
      LineIsOne(s[1..]);
      assert s[..LineLength(s)] == [s[0]] + s[1..][..LineLength(s[1..])];
    }
  }

  /** The length of a line with its ending: a newline, a carriage return, or both in a row. */
  function LineWithEnding(s: string): (n: nat)
    ensures LineLength(s) <= n <= |s| && (LineLength(s) < |s| ==> n > LineLength(s))
  {
    var k := LineLength(s);
    if k == |s| then k
    else if s[k] == '\r' && k + 1 < |s| && s[k + 1] == '\n' then k + 2
    else k + 1
  }

  function Indentation(line: string, most: nat): (k: nat)
    ensures k <= |line|
  {
    if most > 0 && line != "" && line[0] == ' ' then 1 + Indentation(line[1..], most - 1) else 0
  }

  predicate Blank(s: string) { forall i | 0 <= i < |s| :: s[i] == ' ' || s[i] == '\t' }

  /** A closing fence: at most three spaces, at least as many backticks, nothing else. */
  predicate Closes(line: string, n: nat) {
    var s := line[Indentation(line, 3)..];
    FirstRun(s) >= n && Blank(s[FirstRun(s)..])
  }

  /** The lines up to the closing fence, each with its line ending. */
  function ReadLines(s: string, n: nat): Option<string>
    decreases |s|
  {
    var k := LineWithEnding(s);
    if Closes(s[..LineLength(s)], n) then Some("")
    else if LineLength(s) == |s| then None
    else match ReadLines(s[k..], n)
         case None => None
         case Some(content) => Some(s[..k] + content)
  }

  predicate IsBlank(c: char) { c == ' ' || c == '\t' }

  function TrimmedLeft(s: string): (t: string)
    ensures |t| <= |s| && t == s[|s| - |t|..] && (t != "" ==> !IsBlank(t[0]))
  {
    if s != "" && IsBlank(s[0]) then TrimmedLeft(s[1..]) else s
  }

  function TrimmedRight(s: string): (t: string)
    ensures |t| <= |s| && t == s[..|t|] && (t != "" ==> !IsBlank(t[|t| - 1]))
  {
    if s != "" && IsBlank(s[|s| - 1]) then TrimmedRight(s[..|s| - 1]) else s
  }

  /** Reading a fenced code block: its info string, without the spaces and tabs around it and
      before escapes in it are resolved, and its content. */
  function ReadCodeBlock(s: string): Option<(string, string)> {
    var k := LineLength(s);
    var n := FirstRun(s[..k]);
    if n < 3 || '`' in s[n..k] || k == |s| then None
    else match ReadLines(s[LineWithEnding(s)..], n)
         case None => None
         case Some(content) => Some((TrimmedRight(TrimmedLeft(s[n..k])), content))
  }

  lemma {:induction false} LineLengthIs(s: string, n: nat)
    requires n <= |s| && OneLine(s[..n]) && (n < |s| ==> EndsLine(s[n]))
    ensures LineLength(s) == n
  {
    if n > 0 {
      assert s[..n][0] == s[0] && s[..n][1..] == s[1..][..n - 1];
      LineLengthIs(s[1..], n - 1);
    }
  }

  lemma ShortRunsDoNotClose(line: string, n: nat)
    requires RunsBelow(line, n)
    ensures !Closes(line, n)
  {
    var k := Indentation(line, 3);
    assert RunAt(line, '`', k, FirstRun(line[k..]));
  }

  lemma FenceCloses(n: nat)
    requires n > 0
    ensures Closes(Repeat('`', n), n) && OneLine(Repeat('`', n))
  {
    var fence := Repeat('`', n);
    assert fence[0] != ' ' && Indentation(fence, 3) == 0 && fence[0..] == fence;
    FirstRunIs(fence, n);
  }

  lemma {:induction false} LinesReadBack(text: string, n: nat)
    requires n > 0 && RunsBelow(text, n)
    ensures ReadLines(text + "\n" + Repeat('`', n), n) == Some(text + "\n")
    decreases |text|
  {
    var fence := Repeat('`', n);
    var s := text + "\n" + fence;
    var k, e := LineLength(text), LineWithEnding(s);
    FenceCloses(n);
    RunsBelowPrefix(text, n, k);
    ShortRunsDoNotClose(text[..k], n);
    LineIsOne(text);
    assert s[..k] == text[..k];
    LineLengthIs(s, k);
    LineParts(text, fence);
    hide *;
    if e <= |text| {
      RunsBelowTail(text, n, e);
      LinesReadBack(text[e..], n);
      ReadOneLine(s, n, text[e..] + "\n");
    } else {
      FenceReadsBack(n);
      ReadOneLine(s, n, "");
    }
  }

  lemma EndingWithin(text: string, fence: string)
    requires LineLength(text + "\n" + fence) == LineLength(text)
    requires fence != "" ==> !EndsLine(fence[0])
    ensures var s := text + "\n" + fence; LineLength(s) < LineWithEnding(s) <= |text| + 1
  {
    hide LineLength;
    var s := text + "\n" + fence;
    var k := LineLength(s);
    assert s[|text|] == '\n' && |s| == |text| + 1 + |fence|;
    assert |text| + 1 < |s| ==> s[|text| + 1] == fence[0];
  }

  lemma SplitAt(text: string, fence: string, e: nat)
    requires e <= |text|
    ensures var s := text + "\n" + fence;
            s[e..] == text[e..] + "\n" + fence && s[..e] + (text[e..] + "\n") == text + "\n"
  {
  }

  /** Either the first line and its ending lie in the text, or they are all of it. */
  lemma LineParts(text: string, fence: string)
    requires LineLength(text + "\n" + fence) == LineLength(text)
    requires fence != "" ==> !EndsLine(fence[0])
    ensures var s := text + "\n" + fence;
            var e := LineWithEnding(s);
            && LineLength(s) < |s|
            && (e <= |text| ==> e > 0 && s[e..] == text[e..] + "\n" + fence && s[..e] + (text[e..] + "\n") == text + "\n")
            && (e > |text| ==> s[e..] == fence && s[..e] + "" == text + "\n")
  {
    EndingWithin(text, fence);
    hide LineLength, LineWithEnding;
    var e := LineWithEnding(text + "\n" + fence);
    if e <= |text| {
      SplitAt(text, fence, e);
    }
  }

  lemma ReadOneLine(s: string, n: nat, content: string)
    requires LineLength(s) < |s| && !Closes(s[..LineLength(s)], n)
    requires ReadLines(s[LineWithEnding(s)..], n) == Some(content)
    ensures ReadLines(s, n) == Some(s[..LineWithEnding(s)] + content)
  {
  }

  lemma FenceReadsBack(n: nat)
    requires n > 0
    ensures ReadLines(Repeat('`', n), n) == Some("")
  {
    var fence := Repeat('`', n);
    FenceCloses(n);
    LineLengthIs(fence, n);
    assert fence[..n] == fence;
  }

  lemma RunsBelowPrefix(s: string, n: nat, k: nat)
    requires RunsBelow(s, n) && k <= |s|
    ensures RunsBelow(s[..k], n)
  {
    forall i, m | RunAt(s[..k], '`', i, m) ensures m < n {
      assert RunAt(s, '`', i, m);
    }
  }

  /** The language can stand on an info line as it is: on one line, without backticks, and
      without spaces or tabs around it. */
  predicate FitsInfoLine(language: string) {
    && '`' !in language && OneLine(language)
    && (language != "" ==> !IsBlank(language[0]) && !IsBlank(language[|language| - 1]))
  }

  lemma SliceFits(info: string, i: nat, j: nat)
    requires i <= j <= |info| && '`' !in info && OneLine(info)
    ensures '`' !in info[i..j] && OneLine(info[i..j])
  {
    assert forall k | 0 <= k < j - i :: info[i..j][k] == info[i + k];
  }

  lemma TrimmedFits(info: string)
    requires '`' !in info && OneLine(info)
    ensures FitsInfoLine(TrimmedRight(TrimmedLeft(info)))
  {
    var left := TrimmedLeft(info);
    var t := TrimmedRight(left);
    SliceFits(info, |info| - |left|, |info|);
    assert info[|info| - |left|..|info|] == left;
    SliceFits(left, 0, |t|);
    assert left[0..|t|] == t;
    assert t != "" ==> t[0] == left[0];
  }

  /** The info string as it stands on the first line. */
  lemma InfoLine(s: string)
    ensures var n := FirstRun(s[..LineLength(s)]); n <= LineLength(s) && OneLine(s[n..LineLength(s)])
  {
    LineIsOne(s);
    var k := LineLength(s);
    var n := FirstRun(s[..k]);
    assert forall i | 0 <= i < k - n :: s[n..k][i] == s[..k][n + i];
  }

  lemma OnlyFittingReadsBack(language: string, text: string)
    ensures ReadCodeBlock(CodeBlock(language, text)) == Some((language, WithoutLastNewline(text) + "\n"))
            ==> FitsInfoLine(language)
  {
    hide FitsInfoLine, ReadLines, CodeBlock, OneLine, LineLength, FirstRun, WithoutLastNewline;
    var s := CodeBlock(language, text);
    if ReadCodeBlock(s).Some? {
      InfoLine(s);
      TrimmedFits(s[FirstRun(s[..LineLength(s)])..LineLength(s)]);
    }
  }

  /** A code block reads back as its text with exactly one line ending at the end, whatever
      the text, and with its language if and only if the language fits on an info line. */
  lemma CodeBlockRoundTripIff(language: string, text: string)
    ensures ReadCodeBlock(CodeBlock(language, text)) == Some((language, WithoutLastNewline(text) + "\n"))
            <==> FitsInfoLine(language)
  {
    hide *;
    OnlyFittingReadsBack(language, text);
    if FitsInfoLine(language) {
      CodeBlockReadsBack(language, text);
    }
  }

  lemma CodeBlockReadsBack(language: string, text: string)
    requires FitsInfoLine(language)
    ensures ReadCodeBlock(CodeBlock(language, text)) == Some((language, WithoutLastNewline(text) + "\n"))
  {
    var fence, body := Fence(text), WithoutLastNewline(text);
    var n := |fence|;
    var s, first := CodeBlock(language, text), fence + language;
    FenceIsLonger(text);
    FenceCloses(n);
    RunsBelowPrefix(text, n, |body|);
    assert body == text[..|body|];
    assert s == first + "\n" + (body + "\n" + fence);
    assert s[..|first|] == first && s[|first|] == '\n' && s[|first| + 1..] == body + "\n" + fence;
    assert OneLine(first);
    LineLengthIs(s, |first|);
    FirstRunIs(first, n);
    assert s[n..|first|] == language;
    LinesReadBack(body, n);
    assert TrimmedRight(TrimmedLeft(language)) == language;
    hide LineLength, CodeBlock, WithoutLastNewline, Fence, ReadLines, FirstRun, TrimmedLeft, TrimmedRight, OneLine, RunsBelow, Closes;
    assert LineWithEnding(s) == |first| + 1;
  }
}
