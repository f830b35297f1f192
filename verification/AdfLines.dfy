/** How converted Markdown is laid out (Adf.ts): blocks apart by blank lines, items and tasks on
    lines of their own, tables with as many cells in every line. And where a text leads. */
module AdfLines {
  import opened Wrappers
  import opened AdfText
  import opened AdfReferences
  import opened Adf

  // ---------- texts side by side ----------

  /** The text is these parts one after the other, with exactly the separator between two. */
  ghost predicate StandsApart(text: string, parts: seq<string>, separator: string)
    decreases |parts|
  {
    if parts == [] then text == ""
    else if |parts| == 1 then text == parts[0]
    else
      var k := |parts[0]| + |separator|;
      parts[0] <= text && k <= |text| && text[|parts[0]|..k] == separator && StandsApart(text[k..], parts[1..], separator)
  }

  lemma {:induction false} JoinStandsApart(parts: seq<string>, separator: string)
    ensures StandsApart(Join(parts, separator), parts, separator)
  {
    if |parts| > 1 {
      JoinStandsApart(parts[1..], separator);
      var rest := Join(parts[1..], separator);
      assert Join(parts, separator) == parts[0] + separator + rest;
      assert Join(parts, separator)[|parts[0]| + |separator|..] == rest;
    }
  }

  lemma {:induction false} TextsAre(rs: seq<Rendered>)
    ensures |Texts(rs)| == |rs| && forall i | 0 <= i < |rs| :: Texts(rs)[i] == rs[i].text
  {
    if rs != [] {
      TextsAre(rs[1..]);
    }
  }

  // ---------- blocks ----------

  /** Exactly the texts that are not empty, in their order. */
  ghost predicate NonEmptyOf(texts: seq<string>, kept: seq<string>)
    decreases |texts|
  {
    if texts == [] then kept == []
    else if texts[0] == "" then NonEmptyOf(texts[1..], kept)
    else kept != [] && kept[0] == texts[0] && NonEmptyOf(texts[1..], kept[1..])
  }

  lemma {:induction false} NonEmptyIs(texts: seq<string>)
    ensures NonEmptyOf(texts, NonEmpty(texts))
  {
    if texts != [] {
      NonEmptyIs(texts[1..]);
      var rest := NonEmpty(texts[1..]);
      assert [] + rest == rest && ([texts[0]] + rest)[1..] == rest;
    }
  }

  predicate AllSpace(s: string) { forall i | 0 <= i < |s| :: IsSpace(s[i]) }

  /** The text without the white space around it. */
  ghost predicate TrimmedTo(text: string, trimmed: string) {
    && (exists front, back :: text == front + trimmed + back && AllSpace(front) && AllSpace(back))
    && (trimmed != "" ==> !IsSpace(trimmed[0]) && !IsSpace(trimmed[|trimmed| - 1]))
  }

  lemma {:induction false} TrimStartIs(s: string) returns (front: string)
    ensures s == front + TrimStart(s) && AllSpace(front) && (TrimStart(s) != "" ==> !IsSpace(TrimStart(s)[0]))
  {
    if s != "" && IsSpace(s[0]) {
      front := TrimStartIs(s[1..]);
      assert s == [s[0]] + s[1..];
      front := [s[0]] + front;
    } else {
      front := "";
    }
  }

  lemma {:induction false} TrimEndIs(s: string) returns (back: string)
    ensures s == TrimEnd(s) + back && AllSpace(back)
    ensures TrimEnd(s) != "" ==> !IsSpace(TrimEnd(s)[|TrimEnd(s)| - 1]) && TrimEnd(s)[0] == s[0]
  {
    if s != "" && IsSpace(s[|s| - 1]) {
      back := TrimEndIs(s[..|s| - 1]);
      assert s == s[..|s| - 1] + [s[|s| - 1]];
      back := back + [s[|s| - 1]];
    } else {
      back := "";
    }
  }

  /** A document is its blocks that say something, apart by blank lines, without the white space
      around it all; so is the content of a cell before its lines are joined. */
  lemma {:induction false} BlocksStandApart(node: Node, n: nat)
    ensures exists parts, text ::
              && NonEmptyOf(Texts(RenderBlockEach(node, Children(node), n)), parts)
              && StandsApart(text, parts, "\n\n") && TrimmedTo(text, RenderBlocks(node, n).text)
  {
    var texts := Texts(RenderBlockEach(node, Children(node), n));
    var text := Join(NonEmpty(texts), "\n\n");
    assert RenderBlocks(node, n).text == TrimEnd(TrimStart(text));
    hide *;
    NonEmptyIs(texts);
    JoinStandsApart(NonEmpty(texts), "\n\n");
    TrimmedIs(text);
  }

  lemma TrimmedIs(text: string)
    ensures TrimmedTo(text, TrimEnd(TrimStart(text)))
  {
    hide TrimStart, TrimEnd;
    var front := TrimStartIs(text);
    var back := TrimEndIs(TrimStart(text));
    assert text == front + TrimEnd(TrimStart(text)) + back;
  }

  // ---------- lists ----------

  /** How item k of a list begins: its bullet, or the number the list begins with and k more. */
  function Bullet(node: Node, ordered: bool, indentation: nat, k: nat): string {
    Repeat(' ', indentation) + (if ordered then IntText(NumberOf(node.attrs, "order", 1) + k) + "." else "-") + " "
  }

  lemma BulletIs(node: Node, ordered: bool, indentation: nat, k: nat)
    ensures Bullet(node, ordered, indentation, k)
         == LinePrefix(ItemPrefix(ordered, NumberOf(node.attrs, "order", 1) + k), indentation)
  {
    hide IntText, NumberOf, Repeat;
  }

  lemma ItemsBegin(node: Node, n: nat, ordered: bool, indentation: nat, texts: seq<string>)
    requires texts == Texts(RenderItems(node, Children(node), n, ordered, NumberOf(node.attrs, "order", 1), indentation))
    ensures |texts| == |Children(node)| && forall k | 0 <= k < |texts| :: Bullet(node, ordered, indentation, k) <= texts[k]
  {
    var number := NumberOf(node.attrs, "order", 1);
    hide *;
    EachItemBegins(node, Children(node), n, ordered, number, indentation);
    TextsAre(RenderItems(node, Children(node), n, ordered, number, indentation));
    forall k | 0 <= k < |texts| ensures Bullet(node, ordered, indentation, k) <= texts[k] {
      BulletIs(node, ordered, indentation, k);
    }
  }

  /** Every item of a list stands behind its bullet or number, on lines of its own. */
  lemma {:induction false} ItemsOnLines(node: Node, n: nat, ordered: bool, indentation: nat)
    ensures exists parts ::
              && |parts| == |Children(node)| && StandsApart(RenderList(node, n, ordered, indentation).text, parts, "\n")
              && forall k | 0 <= k < |parts| :: Bullet(node, ordered, indentation, k) <= parts[k]
  {
    var texts := Texts(RenderItems(node, Children(node), n, ordered, NumberOf(node.attrs, "order", 1), indentation));
    assert RenderList(node, n, ordered, indentation).text == Join(texts, "\n");
    hide *;
    ItemsBegin(node, n, ordered, indentation, texts);
    JoinStandsApart(texts, "\n");
  }

  lemma {:induction false} EachItemBegins(parent: Node, items: seq<Node>, n: nat, ordered: bool, number: int, indentation: nat)
    requires Below(items, parent)
    ensures var rs := RenderItems(parent, items, n, ordered, number, indentation);
            && |rs| == |items|
            && forall k | 0 <= k < |rs| :: LinePrefix(ItemPrefix(ordered, number + k), indentation) <= rs[k].text
  {
    hide ItemPrefix, LinePrefix, RenderItem;
    if items != [] {
      var r := RenderItem(items[0], n, ItemPrefix(ordered, number), indentation);
      ItemBegins(items[0], n, ItemPrefix(ordered, number), indentation);
      EachItemBegins(parent, items[1..], n + |r.refs|, ordered, number + 1, indentation);
      var rs := RenderItems(parent, items, n, ordered, number, indentation);
      forall k | 0 <= k < |rs| ensures LinePrefix(ItemPrefix(ordered, number + k), indentation) <= rs[k].text {
        if k > 0 {
          assert rs[k] == RenderItems(parent, items[1..], n + |r.refs|, ordered, number + 1, indentation)[k - 1];
          assert number + k == number + 1 + (k - 1);
        }
      }
    }
  }

  lemma ItemBegins(item: Node, n: nat, prefix: string, indentation: nat)
    ensures LinePrefix(prefix, indentation) <= RenderItem(item, n, prefix, indentation).text
  {
    var line := LinePrefix(prefix, indentation);
    var lines := ItemLines(item, Children(item), n, line, indentation + 2);
    assert line != "" && lines != [] && line <= lines[0].text;
    hide ItemLines, LinePrefix;
    var texts := NonEmpty(Texts(lines));
    assert Texts(lines)[0] == lines[0].text;
    assert texts[0] == lines[0].text;
  }

  /** How a task begins: its box is ticked exactly when it is done. */
  function Box(item: Node, indentation: nat): string {
    Repeat(' ', indentation) + (if IsDone(item) then "- [x] " else "- [ ] ")
  }

  /** Every task stands behind its box, on lines of its own. */
  lemma {:induction false} TasksOnLines(node: Node, n: nat, indentation: nat)
    ensures exists parts ::
              && |parts| == |Children(node)| && StandsApart(RenderTaskList(node, n, indentation).text, parts, "\n")
              && forall k | 0 <= k < |parts| :: Box(Children(node)[k], indentation) <= parts[k]
  {
    var tasks := RenderTasks(node, Children(node), n, indentation);
    assert RenderTaskList(node, n, indentation).text == Join(Texts(tasks), "\n");
    hide *;
    TextsAre(tasks);
    JoinStandsApart(Texts(tasks), "\n");
    EachTaskBegins(node, Children(node), n, indentation);
  }

  lemma {:induction false} EachTaskBegins(parent: Node, items: seq<Node>, n: nat, indentation: nat)
    requires Below(items, parent)
    ensures var rs := RenderTasks(parent, items, n, indentation);
            |rs| == |items| && forall k | 0 <= k < |rs| :: Box(items[k], indentation) <= rs[k].text
  {
    hide Box, RenderTask;
    if items != [] {
      TaskBegins(items[0], n, indentation);
      var r := RenderTask(items[0], n, indentation);
      EachTaskBegins(parent, items[1..], n + |r.refs|, indentation);
    }
  }

  lemma TaskBegins(item: Node, n: nat, indentation: nat)
    ensures Box(item, indentation) <= RenderTask(item, n, indentation).text
  {
    hide IsDone, RenderLabels;
  }

  // ---------- what stands below an item ----------

  predicate IsIndented(s: string, indentation: nat) { |s| >= indentation && forall i | 0 <= i < indentation :: s[i] == ' ' }

  lemma JoinBegins(texts: seq<string>, separator: string, prefix: string)
    requires texts != [] && prefix <= texts[0]
    ensures prefix <= Join(texts, separator)
  {
    if |texts| > 1 {
      var rest := Join(texts[1..], separator);
      assert Join(texts, separator) == texts[0] + (separator + rest);
    }
  }

  lemma SpacesIndent(s: string, indentation: nat)
    requires Repeat(' ', indentation) <= s
    ensures IsIndented(s, indentation)
  {
  }

  lemma NestedListBegins(node: Node, n: nat, ordered: bool, indentation: nat)
    ensures RenderList(node, n, ordered, indentation).text != "" ==>
              IsIndented(RenderList(node, n, ordered, indentation).text, indentation)
  {
    var texts := Texts(RenderItems(node, Children(node), n, ordered, NumberOf(node.attrs, "order", 1), indentation));
    assert RenderList(node, n, ordered, indentation).text == Join(texts, "\n");
    assert Repeat(' ', indentation) <= Bullet(node, ordered, indentation, 0);
    assert Join([], "\n") == "";
    hide *;
    ItemsBegin(node, n, ordered, indentation, texts);
    if texts != [] {
      JoinBegins(texts, "\n", Repeat(' ', indentation));
      SpacesIndent(Join(texts, "\n"), indentation);
    }
  }

  lemma NestedTasksBegin(node: Node, n: nat, indentation: nat)
    ensures RenderTaskList(node, n, indentation).text != "" ==>
              IsIndented(RenderTaskList(node, n, indentation).text, indentation)
  {
    var tasks := RenderTasks(node, Children(node), n, indentation);
    assert RenderTaskList(node, n, indentation).text == Join(Texts(tasks), "\n");
    assert forall item :: Repeat(' ', indentation) <= Box(item, indentation);
    assert Join([], "\n") == "";
    hide *;
    TextsAre(tasks);
    EachTaskBegins(node, Children(node), n, indentation);
    if tasks != [] {
      JoinBegins(Texts(tasks), "\n", Repeat(' ', indentation));
      SpacesIndent(Join(Texts(tasks), "\n"), indentation);
    }
  }

  lemma NestedBegins(node: Node, n: nat, indentation: nat)
    ensures RenderNested(node, n, indentation).text != "" ==>
              IsIndented(RenderNested(node, n, indentation).text, indentation)
  {
    hide Repeat, RenderList, RenderTaskList, RenderBlock;
    match node.kind
    case BulletList => NestedListBegins(node, n, false, indentation);
    case OrderedList => NestedListBegins(node, n, true, indentation);
    case TaskList => NestedTasksBegin(node, n, indentation);
    case _ => SpacesIndent(Indented(RenderBlock(node, n), indentation).text, indentation);
  }

  /** Behind every line ending stand this many spaces. */
  ghost predicate LinesIndented(s: string, amount: nat) {
    forall i | 0 <= i < |s| && s[i] == '\n' :: IsIndented(s[i + 1..], amount)
  }

  lemma LinesIndentedMore(head: string, tail: string, amount: nat)
    requires LinesIndented(tail, amount)
    requires head == "\n" + Repeat(' ', amount) || (|head| == 1 && head[0] != '\n')
    ensures LinesIndented(head + tail, amount)
  {
    var s := head + tail;
    forall i | 0 <= i < |s| && s[i] == '\n' ensures IsIndented(s[i + 1..], amount) {
      if i >= |head| {
        assert s[i + 1..] == tail[i - |head| + 1..];
      } else {
        assert i == 0 && s[1..] == Repeat(' ', amount) + tail;
      }
    }
  }

  /** Every line of an indented block is indented, and there are as many as before. */
  lemma {:induction false} EveryLineIndented(text: string, amount: nat)
    ensures LinesIndented(PerChar(text, IndentChar(amount)), amount)
    ensures Newlines(PerChar(text, IndentChar(amount))) == Newlines(text)
  {
    hide LinesIndented, Repeat;
    if text == "" {
      NoLines(amount);
    } else {
      var head, tail := IndentChar(amount)(text[0]), PerChar(text[1..], IndentChar(amount));
      EveryLineIndented(text[1..], amount);
      NewlinesConcat(head, tail);
      LinesIndentedMore(head, tail, amount);
      NewlinesOf(text[0], amount);
    }
  }

  lemma NoLines(amount: nat)
    ensures LinesIndented("", amount)
  {
  }

  lemma NewlinesOf(c: char, amount: nat)
    ensures Newlines(IndentChar(amount)(c)) == if c == '\n' then 1 else 0
  {
    if c == '\n' {
      assert ("\n" + Repeat(' ', amount))[1..] == Repeat(' ', amount);
      NoNewlines(Repeat(' ', amount));
    } else {
      assert [c][1..] == "";
    }
  }

  function Newlines(s: string): nat { if s == "" then 0 else (if s[0] == '\n' then 1 else 0) + Newlines(s[1..]) }

  lemma {:induction false} NewlinesConcat(a: string, b: string)
    ensures Newlines(a + b) == Newlines(a) + Newlines(b)
  {
    if a == "" {
      assert a + b == b;
    } else {
      assert (a + b)[1..] == a[1..] + b;
      NewlinesConcat(a[1..], b);
    }
  }

  lemma {:induction false} NoNewlines(s: string)
    requires '\n' !in s
    ensures Newlines(s) == 0
  {
    if s != "" {
      NoNewlines(s[1..]);
    }
  }

  predicate AllIndented(texts: seq<string>, indentation: nat) { forall k | 0 <= k < |texts| :: IsIndented(texts[k], indentation) }

  lemma {:induction false} RestBegins(parent: Node, nodes: seq<Node>, n: nat, indentation: nat)
    requires Below(nodes, parent)
    ensures AllIndented(NonEmpty(Texts(RenderRest(parent, nodes, n, indentation))), indentation)
  {
    hide IsIndented, RenderNested;
    if nodes != [] {
      var r := RenderNested(nodes[0], n, indentation);
      var rest := RenderRest(parent, nodes[1..], n + |r.refs|, indentation);
      NestedBegins(nodes[0], n, indentation);
      RestBegins(parent, nodes[1..], n + |r.refs|, indentation);
      NonEmptyFirst(r, rest);
    }
  }

  lemma NonEmptyFirst(r: Rendered, rest: seq<Rendered>)
    ensures NonEmpty(Texts([r] + rest)) == (if r.text == "" then [] else [r.text]) + NonEmpty(Texts(rest))
  {
    assert ([r] + rest)[1..] == rest;
    assert ([r.text] + Texts(rest))[1..] == Texts(rest);
  }

  /** Whatever stands below the first line of an item is indented by two more than the item. */
  lemma {:induction false} BelowItemIsIndented(item: Node, n: nat, prefix: string, indentation: nat)
    ensures exists parts ::
              && parts != [] && StandsApart(RenderItem(item, n, prefix, indentation).text, parts, "\n")
              && LinePrefix(prefix, indentation) <= parts[0]
              && AllIndented(parts[1..], indentation + 2)
  {
    var line := LinePrefix(prefix, indentation);
    var lines := ItemLines(item, Children(item), n, line, indentation + 2);
    var parts := NonEmpty(Texts(lines));
    JoinStandsApart(parts, "\n");
    assert line != "";
    assert RenderItem(item, n, prefix, indentation).text == Join(parts, "\n");
    hide LinePrefix, RenderItem, StandsApart, Join, IsIndented, RenderRest;
    ItemLinesAre(item, Children(item), n, line, indentation + 2);
  }

  lemma ItemLinesAre(item: Node, children: seq<Node>, n: nat, line: string, indentation: nat)
    requires line != "" && Below(children, item)
    ensures var parts := NonEmpty(Texts(ItemLines(item, children, n, line, indentation)));
            parts != [] && line <= parts[0] && AllIndented(parts[1..], indentation)
  {
    hide RenderRest, RenderLabel, IsIndented;
    if children == [] {
      assert Texts([Plainly(line)]) == [line];
    } else {
      var head := Around(line, RenderLabel(children[0], n), "");
      var rest := RenderRest(item, children[1..], n + |head.refs|, indentation);
      RestBegins(item, children[1..], n + |head.refs|, indentation);
      NonEmptyFirst(head, rest);
      assert ([head.text] + NonEmpty(Texts(rest)))[1..] == NonEmpty(Texts(rest));
    }
  }

  // ---------- headings ----------

  /** The text begins with exactly k hashes and a space. */
  ghost predicate BeginsHeading(text: string, k: nat) {
    k < |text| && text[k] == ' ' && forall i | 0 <= i < k :: text[i] == '#'
  }

  /** A heading begins with as many hashes as its level, which is kept between 1 and 6. */
  lemma HeadingBegins(node: Node, n: nat)
    requires node.kind.Heading?
    ensures var level := NumberOf(node.attrs, "level", 1);
            && (1 <= level <= 6 ==> BeginsHeading(RenderBlock(node, n).text, level))
            && (level < 1 ==> BeginsHeading(RenderBlock(node, n).text, 1))
            && (level > 6 ==> BeginsHeading(RenderBlock(node, n).text, 6))
  {
    var k := Level(NumberOf(node.attrs, "level", 1));
    var line := RenderInlineChildren(node, n).text;
    assert RenderBlock(node, n).text == Repeat('#', k) + " " + line + "";
    HashesBegin(k, line);
  }

  lemma HashesBegin(k: nat, line: string)
    ensures BeginsHeading(Repeat('#', k) + " " + line + "", k)
  {
  }

  // ---------- tables ----------

  /** The bars that no backslash stands before: those that end a cell. */
  function OpenBars(s: string, escaped: bool): nat {
    if s == "" then 0 else (if s[0] == '|' && !escaped then 1 else 0) + OpenBars(s[1..], s[0] == '\\')
  }

  function EndsEscaped(s: string, escaped: bool): bool {
    if s == "" then escaped else s[|s| - 1] == '\\'
  }

  lemma {:induction false} OpenBarsConcat(a: string, b: string, escaped: bool)
    ensures OpenBars(a + b, escaped) == OpenBars(a, escaped) + OpenBars(b, EndsEscaped(a, escaped))
  {
    if a == "" {
      assert a + b == b;
    } else {
      assert (a + b)[1..] == a[1..] + b;
      OpenBarsConcat(a[1..], b, a[0] == '\\');
      assert EndsEscaped(a, escaped) == EndsEscaped(a[1..], a[0] == '\\');
    }
  }

  /** What stands in a cell ends neither the cell nor its line. */
  predicate FitsCell(s: string) { OpenBars(s, false) == 0 && OpenBars(s, true) == 0 && '\n' !in s }

  lemma {:induction false} CellFits(s: string, escaped: bool)
    ensures OpenBars(PerChar(s, CellChar), escaped) == 0 && '\n' !in PerChar(s, CellChar)
  {
    if s != "" {
      var head := CellChar(s[0]);
      CellFits(s[1..], EndsEscaped(head, escaped));
      OpenBarsConcat(head, PerChar(s[1..], CellChar), escaped);
      CellCharFits(s[0], escaped);
    }
  }

  lemma {:induction false} NoBars(s: string, escaped: bool)
    requires '|' !in s
    ensures OpenBars(s, escaped) == 0
  {
    if s != "" {
      NoBars(s[1..], s[0] == '\\');
    }
  }

  lemma CellCharFits(c: char, escaped: bool)
    ensures OpenBars(CellChar(c), escaped) == 0 && '\n' !in CellChar(c)
  {
    if c == '\n' {
      NoBars("<br>", escaped);
    } else if c == '|' {
      assert CellChar(c) == "\\|" && CellChar(c)[1..] == "|" && "|"[1..] == "";
      assert OpenBars("|", true) == 0 + OpenBars("", false);
    } else {
      assert [c][1..] == "";
    }
  }

  ghost predicate AllFit(cells: seq<string>) { forall i | 0 <= i < |cells| :: FitsCell(cells[i]) }

  lemma BarBetween(rest: string, escaped: bool)
    ensures OpenBars(" | " + rest, escaped) == 1 + OpenBars(rest, false)
    ensures OpenBars("| " + rest, false) == 1 + OpenBars(rest, false)
    ensures OpenBars(" |", escaped) == 1
  {
    var a, b, c := " | " + rest, "| " + rest, " " + rest;
    assert a[0] == ' ' && a[1..] == b && b[0] == '|' && b[1..] == c && c[0] == ' ' && c[1..] == rest;
    assert OpenBars(a, escaped) == OpenBars(b, false);
    assert OpenBars(b, false) == 1 + OpenBars(c, false);
    assert OpenBars(c, false) == OpenBars(rest, false);
    assert " |"[1..] == "|" && "|"[1..] == "";
    assert OpenBars("|", false) == 1 + OpenBars("", false);
  }

  lemma {:induction false} JoinedCells(cells: seq<string>)
    requires AllFit(cells)
    ensures OpenBars(Join(cells, " | "), false) == if cells == [] then 0 else |cells| - 1
    ensures '\n' !in Join(cells, " | ")
  {
    if |cells| == 1 {
      assert FitsCell(cells[0]);
    } else if |cells| > 1 {
      var first, rest := cells[0], Join(cells[1..], " | ");
      assert FitsCell(first);
      JoinedCells(cells[1..]);
      BarBetween(rest, EndsEscaped(first, false));
      OpenBarsConcat(first, " | " + rest, false);
      assert Join(cells, " | ") == first + (" | " + rest);
    }
  }

  /** A line of a table with this many cells in it. */
  ghost predicate IsRow(line: string, cells: nat) {
    && "| " <= line && |line| >= 4 && line[|line| - 2..] == " |" && '\n' !in line
    && OpenBars(line, false) == (if cells == 0 then 2 else cells + 1)
  }

  lemma RowEnds(middle: string)
    ensures var line := "| " + middle + " |";
            && "| " <= line && |line| >= 4 && line[|line| - 2..] == " |" && line == "| " + (middle + " |")
            && ('\n' !in middle ==> '\n' !in line)
  {
  }

  lemma CellsMakeRow(cells: seq<string>)
    requires AllFit(cells)
    ensures IsRow("| " + Join(cells, " | ") + " |", |cells|)
  {
    hide OpenBars, AllFit, Join;
    var middle := Join(cells, " | ");
    JoinedCells(cells);
    RowEnds(middle);
    BarBetween(middle + " |", false);
    OpenBarsConcat(middle, " |", false);
    BarBetween("", EndsEscaped(middle, false));
  }

  ghost predicate FittingCells(cells: seq<Rendered>) { forall i | 0 <= i < |cells| :: FitsCell(cells[i].text) }

  lemma {:induction false} CellsFit(parent: Node, cells: seq<Node>, n: nat)
    requires Below(cells, parent)
    ensures |RenderCells(parent, cells, n)| == |cells| && FittingCells(RenderCells(parent, cells, n))
  {
    hide FitsCell;
    if cells != [] {
      var r := RenderCell(cells[0], n);
      CellTextFits(RenderBlocks(cells[0], n).text);
      hide RenderCell;
      CellsFit(parent, cells[1..], n + |r.refs|);
    }
  }

  lemma CellTextFits(s: string)
    ensures FitsCell(PerChar(s, CellChar))
  {
    CellFits(s, false);
    CellFits(s, true);
  }

  ghost predicate FittingRows(rows: seq<seq<Rendered>>, nodes: seq<Node>) {
    |rows| == |nodes| && forall i | 0 <= i < |rows| :: |rows[i]| == |Children(nodes[i])| && FittingCells(rows[i])
  }

  lemma {:induction false} RowsFit(parent: Node, rows: seq<Node>, n: nat)
    requires Below(rows, parent)
    ensures FittingRows(RenderRows(parent, rows, n), rows)
  {
    hide FittingCells;
    if rows != [] {
      var cells := RenderCells(rows[0], Children(rows[0]), n);
      CellsFit(rows[0], Children(rows[0]), n);
      RowsFit(parent, rows[1..], n + |AllRefs(cells)|);
    }
  }

  lemma {:induction false} BlanksFit(k: nat)
    ensures |Blanks(k)| == k && FittingCells(Blanks(k))
  {
    if k > 0 {
      BlanksFit(k - 1);
    }
  }

  lemma LineIsRow(cells: seq<Rendered>, width: nat)
    requires FittingCells(cells) && |cells| <= width
    ensures IsRow(RowLine(cells, width).text, width)
  {
    hide FitsCell, IsRow;
    var all := cells + Blanks(width - |cells|);
    BlanksFit(width - |cells|);
    TextsAre(all);
    assert AllFit(Texts(all));
    CellsMakeRow(Texts(all));
    assert width == |cells| ==> Blanks(0) == [];
  }

  lemma {:induction false} RulesAre(k: nat)
    ensures |Rules(k)| == k && AllFit(Rules(k)) && forall i | 0 <= i < k :: Rules(k)[i] == "---"
  {
    if k > 0 {
      RulesAre(k - 1);
      NoBars("---", false);
      NoBars("---", true);
    }
  }

  lemma {:induction false} LinesAreRows(rows: seq<seq<Rendered>>, width: nat)
    requires forall i | 0 <= i < |rows| :: FittingCells(rows[i]) && |rows[i]| <= width
    ensures |RowLines(rows, width)| == |rows| && forall i | 0 <= i < |rows| :: IsRow(RowLines(rows, width)[i].text, width)
  {
    hide FittingCells, IsRow, RowLine;
    if rows != [] {
      LineIsRow(rows[0], width);
      LinesAreRows(rows[1..], width);
    }
  }

  /** As many cells as the longest row has. */
  ghost predicate LongestRow(rows: seq<Node>, width: nat) {
    && (forall i | 0 <= i < |rows| :: |Children(rows[i])| <= width)
    && (width > 0 ==> exists i | 0 <= i < |rows| :: |Children(rows[i])| == width)
  }

  /** The rows and, behind the first, the rule. */
  ghost predicate TableLines(lines: seq<string>, width: nat) {
    && (forall k | 0 <= k < |lines| :: IsRow(lines[k], width))
    && |lines| > 1 && exists dashes ::
         lines[1] == "| " + Join(dashes, " | ") + " |" && |dashes| == width && forall k | 0 <= k < width :: dashes[k] == "---"
  }

  lemma WidthIsLongest(rows: seq<seq<Rendered>>, nodes: seq<Node>)
    requires FittingRows(rows, nodes)
    ensures LongestRow(nodes, Width(rows)) && forall i | 0 <= i < |rows| :: FittingCells(rows[i]) && |rows[i]| <= Width(rows)
  {
    hide FittingCells;
  }

  lemma RuleIsRow(width: nat)
    ensures IsRow(RuleLine(width).text, width)
    ensures exists dashes ::
              RuleLine(width).text == "| " + Join(dashes, " | ") + " |" && |dashes| == width
              && forall k | 0 <= k < width :: dashes[k] == "---"
  {
    RulesAre(width);
    CellsMakeRow(Rules(width));
    hide IsRow;
    assert RuleLine(width).text == "| " + Join(Rules(width), " | ") + " |";
  }

  function LinesOf(rows: seq<seq<Rendered>>, width: nat): seq<Rendered>
    requires rows != []
  {
    [RowLine(rows[0], width)] + ([RuleLine(width)] + RowLines(rows[1..], width))
  }

  lemma LinesOfTable(rows: seq<seq<Rendered>>, width: nat)
    requires rows != [] && forall i | 0 <= i < |rows| :: FittingCells(rows[i]) && |rows[i]| <= width
    ensures TableLines(Texts(LinesOf(rows, width)), width) && |Texts(LinesOf(rows, width))| == |rows| + 1
  {
    hide FittingCells, IsRow, RowLine, RuleLine;
    RuleIsRow(width);
    LineIsRow(rows[0], width);
    LinesAreRows(rows[1..], width);
    var lines := LinesOf(rows, width);
    TextsAre(lines);
    hide Texts, RowLines;
    var texts := Texts(lines);
    assert texts[1] == RuleLine(width).text;
    forall k | 0 <= k < |texts| ensures IsRow(texts[k], width) {
      if k > 1 {
        assert lines[k] == RowLines(rows[1..], width)[k - 2];
      }
    }
  }

  /** A table has one line per row and a rule behind the first, all with as many cells as the
      longest row has: nothing in a cell ends a cell or a line. */
  lemma {:induction false} TableIsRectangular(node: Node, n: nat)
    requires Children(node) != []
    ensures exists width: nat, lines ::
              && LongestRow(Children(node), width) && |lines| == |Children(node)| + 1 && TableLines(lines, width)
              && StandsApart(RenderTable(node, n).text, lines, "\n")
  {
    var rows := RenderRows(node, Children(node), n);
    RowsFit(node, Children(node), n);
    WidthIsLongest(rows, Children(node));
    assert |rows| == |Children(node)|;
    var texts := Texts(LinesOf(rows, Width(rows)));
    assert RenderTable(node, n).text == Join(texts, "\n");
    hide *;
    LinesOfTable(rows, Width(rows));
    JoinStandsApart(texts, "\n");
  }

  // ---------- where a text leads ----------

  /** An issue's id begins eight characters after this position of an address. */
  predicate LeadsToIssue(url: string, i: nat) {
    i + 8 < |url| && BeginsWith(url[i..], "/browse/") && url[i + 8] !in {'/', '?', '#'}
  }

  lemma {:induction false} UntilDelimiterIs(s: string)
    ensures var id := UntilDelimiter(s);
            && id <= s && (forall i | 0 <= i < |id| :: id[i] !in {'/', '?', '#'})
            && (|id| < |s| ==> s[|id|] in {'/', '?', '#'})
  {
    if s != "" && s[0] !in {'/', '?', '#'} {
      UntilDelimiterIs(s[1..]);
      assert s == [s[0]] + s[1..];
    }
  }

  /** The id of an issue stands behind the first "/browse/" that something follows, and goes up
      to the next delimiter. */
  lemma {:induction false} JiraIssueIdIsFirst(url: string)
    ensures JiraIssueId(url).None? <==> forall i | 0 <= i < |url| :: !LeadsToIssue(url, i)
    ensures JiraIssueId(url).Some? ==>
              exists i: nat :: LeadsToIssue(url, i) && JiraIssueId(url).value == UntilDelimiter(url[i + 8..])
                               && forall j | 0 <= j < i :: !LeadsToIssue(url, j)
  {
    if url != "" {
      var rest := url[1..];
      JiraIssueIdIsFirst(rest);
      FirstLeads(url);
      assert forall i: nat :: LeadsToIssue(url, i + 1) <==> LeadsToIssue(rest, i) by {
        forall i: nat ensures LeadsToIssue(url, i + 1) <==> LeadsToIssue(rest, i) {
          if i + 1 <= |url| {
            assert url[i + 1..] == rest[i..];
          }
        }
      }
      hide LeadsToIssue;
      if !LeadsToIssue(url, 0) {
        assert JiraIssueId(url) == JiraIssueId(rest);
        if JiraIssueId(rest).Some? {
          var i: nat :| LeadsToIssue(rest, i) && JiraIssueId(rest).value == UntilDelimiter(rest[i + 8..])
                        && forall j | 0 <= j < i :: !LeadsToIssue(rest, j);
          LeadsWithin(rest, i);
          assert rest[i + 8..] == url[i + 1 + 8..];
          forall j | 0 <= j < i + 1 ensures !LeadsToIssue(url, j) {
            assert j > 0 ==> !LeadsToIssue(rest, j - 1);
          }
          assert LeadsToIssue(url, i + 1);
        } else {
          forall i | 0 <= i < |url| ensures !LeadsToIssue(url, i) {
            assert i > 0 ==> !LeadsToIssue(rest, i - 1);
          }
        }
      }
    }
  }

  lemma LeadsWithin(url: string, i: nat)
    requires LeadsToIssue(url, i)
    ensures i + 8 < |url|
  {
  }

  lemma FirstLeads(url: string)
    requires url != ""
    ensures LeadsToIssue(url, 0) <==> BeginsWith(url, "/browse/") && UntilDelimiter(url[8..]) != ""
  {
    assert url[0..] == url;
    if |url| > 8 {
      assert url[8..][0] == url[8];
    }
  }

  /** A link whose address leads to an issue. */
  predicate IssueLink(mark: NodeMark) {
    && mark.kind.LinkMark? && "href" in mark.attrs && mark.attrs["href"].TextAttr?
    && JiraIssueId(mark.attrs["href"].text).Some?
  }

  /** A text leads to the issue of the first link that leads to one. */
  lemma {:induction false} IssueLinkIsFirst(marks: seq<NodeMark>)
    ensures forall i | 0 <= i < |marks| && IssueLink(marks[i]) && (forall j | 0 <= j < i :: !IssueLink(marks[j])) ::
              JiraLink(marks) == Some(marks[i].attrs["href"].text)
    ensures (forall i | 0 <= i < |marks| :: !IssueLink(marks[i])) ==> JiraLink(marks).None?
  {
    if marks != [] {
      var rest := marks[1..];
      IssueLinkIsFirst(rest);
      JiraLinkFirst(marks);
      hide JiraLink, IssueLink;
      assert forall j | 0 <= j < |rest| :: rest[j] == marks[j + 1];
      forall i | 0 <= i < |marks| && IssueLink(marks[i]) && (forall j | 0 <= j < i :: !IssueLink(marks[j]))
        ensures JiraLink(marks) == Some(marks[i].attrs["href"].text)
      {
        if i > 0 {
          assert rest[i - 1] == marks[i] && forall j | 0 <= j < i - 1 :: rest[j] == marks[j + 1];
        }
      }
    }
  }

  lemma JiraLinkFirst(marks: seq<NodeMark>)
    requires marks != []
    ensures JiraLink(marks) == if IssueLink(marks[0]) then Some(marks[0].attrs["href"].text) else JiraLink(marks[1..])
    ensures forall mark :: IssueLink(mark) ==> "href" in mark.attrs && mark.attrs["href"].TextAttr?
  {
  }

  /** Any other link of a text has the address of its first link. */
  lemma {:induction false} FirstLinkIsFirst(marks: seq<NodeMark>)
    ensures forall i | 0 <= i < |marks| && marks[i].kind.LinkMark? && (forall j | 0 <= j < i :: !marks[j].kind.LinkMark?) ::
              FirstLink(marks) == if "href" in marks[i].attrs && marks[i].attrs["href"].TextAttr?
                                  then Some(marks[i].attrs["href"].text) else None
    ensures (forall i | 0 <= i < |marks| :: !marks[i].kind.LinkMark?) ==> FirstLink(marks).None?
  {
    if marks != [] {
      var rest := marks[1..];
      FirstLinkIsFirst(rest);
      assert forall j | 0 <= j < |rest| :: rest[j] == marks[j + 1];
      forall i | 0 <= i < |marks| && marks[i].kind.LinkMark? && (forall j | 0 <= j < i :: !marks[j].kind.LinkMark?)
        ensures FirstLink(marks) == if "href" in marks[i].attrs && marks[i].attrs["href"].TextAttr?
                                    then Some(marks[i].attrs["href"].text) else None
      {
        if i > 0 {
          assert rest[i - 1] == marks[i] && forall j | 0 <= j < i - 1 :: rest[j] == marks[j + 1];
        }
      }
    }
  }

  /** The supported marks, one for one and in their order. */
  lemma {:induction false} SupportedInOrder(marks: seq<NodeMark>, more: seq<NodeMark>)
    ensures SupportedMarks(marks + more) == SupportedMarks(marks) + SupportedMarks(more)
    ensures |marks| == 1 ==> SupportedMarks(marks) == if marks[0].kind.Supported? then [marks[0].kind.mark] else []
  {
    if marks == [] {
      assert marks + more == more;
    } else {
      assert (marks + more)[1..] == marks[1..] + more;
      SupportedInOrder(marks[1..], more);
    }
  }
}
