/** canonicalJiraJson (Manifest.ts) over JSON values. A string is its sequence of UTF-16 code
    units, a number is the text it is rendered as, and an object is its entries in the order
    in which they were set. */
module CanonicalJson {
  import opened Sorting

  type Text = seq<int>

  datatype Entry = Entry(key: Text, value: Json)

  datatype Json =
    | Null
    | Bool(value: bool)
    | Number(digits: Text)
    | Str(units: Text)
    | Arr(items: seq<Json>)
    | Obj(entries: seq<Entry>)

  // ---------- code units ----------

  const QUOTE := 0x22
  const BACKSLASH := 0x5C
  const COMMA := 0x2C
  const COLON := 0x3A
  const OPEN_ARRAY := 0x5B
  const CLOSE_ARRAY := 0x5D
  const OPEN_OBJECT := 0x7B
  const CLOSE_OBJECT := 0x7D

  predicate IsHigh(c: int) { 0xD800 <= c < 0xDC00 }
  predicate IsLow(c: int) { 0xDC00 <= c < 0xE000 }

  /** Digits, sign, point and exponent: RFC 8259, section 6. */
  predicate IsNumberUnit(c: int) {
    0x30 <= c <= 0x39 || c in {0x2B, 0x2D, 0x2E, 0x65, 0x45}
  }

  predicate Valid(v: Json)
    decreases v
  {
    match v
    case Null => true
    case Bool(_) => true
    case Number(digits) => digits != [] && forall i | 0 <= i < |digits| :: IsNumberUnit(digits[i])
    case Str(units) => ValidText(units)
    case Arr(items) => forall i | 0 <= i < |items| :: Valid(items[i])
    case Obj(entries) =>
      && (forall i | 0 <= i < |entries| :: ValidText(entries[i].key) && Valid(entries[i].value))
      && DistinctKeys(entries)
  }

  predicate DistinctKeys(entries: seq<Entry>) {
    forall i, j | 0 <= i < j < |entries| :: entries[i].key != entries[j].key
  }

  predicate ValidText(units: Text) {
    forall i | 0 <= i < |units| :: 0 <= units[i] < 0x1_0000
  }

  // ---------- JSON.stringify of a string: RFC 8259, section 7 ----------

  function Hex(d: int): int
    requires 0 <= d < 16
  {
    if d < 10 then 0x30 + d else 0x61 + d - 10
  }

  function UnicodeEscape(c: int): (t: Text)
    requires 0 <= c < 0x1_0000
    ensures |t| == 6 && t[0] == BACKSLASH && t[1] == 0x75
  {
    [BACKSLASH, 0x75, Hex(c / 16 / 16 / 16), Hex(c / 16 / 16 % 16), Hex(c / 16 % 16), Hex(c % 16)]
  }

  /** How many units the first token takes: a surrogate pair is kept together. */
  function TokenLength(units: Text): (n: nat)
    requires units != []
    ensures 1 <= n <= |units|
  {
    if |units| > 1 && IsHigh(units[0]) && IsLow(units[1]) then 2 else 1
  }

  function Short(c: int): int {
    if c == QUOTE then QUOTE
    else if c == BACKSLASH then BACKSLASH
    else if c == 0x08 then 0x62
    else if c == 0x0C then 0x66
    else if c == 0x0A then 0x6E
    else if c == 0x0D then 0x72
    else if c == 0x09 then 0x74
    else 0
  }

  function Token(units: Text): (t: Text)
    requires units != [] && ValidText(units)
    ensures t != []
  {
    var c := units[0];
    if TokenLength(units) == 2 then [c, units[1]]
    else if Short(c) != 0 then [BACKSLASH, Short(c)]
    else if c < 0x20 || IsHigh(c) || IsLow(c) then UnicodeEscape(c)
    else [c]
  }

  function Escaped(units: Text): Text
    requires ValidText(units)
  {
    if units == [] then [] else Token(units) + Escaped(units[TokenLength(units)..])
  }

  function Quoted(units: Text): Text
    requires ValidText(units)
  {
    [QUOTE] + Escaped(units) + [QUOTE]
  }

  // ---------- printing in the given order ----------

  /** JSON.stringify: object entries stay in their order. */
  function Print(v: Json): (t: Text)
    requires Valid(v)
    decreases v, 1, 0
  {
    match v
    case Null => [0x6E, 0x75, 0x6C, 0x6C]
    case Bool(b) => if b then [0x74, 0x72, 0x75, 0x65] else [0x66, 0x61, 0x6C, 0x73, 0x65]
    case Number(digits) => digits
    case Str(units) => Quoted(units)
    case Arr(items) => [OPEN_ARRAY] + PrintItems(v, items) + [CLOSE_ARRAY]
    case Obj(entries) => [OPEN_OBJECT] + PrintEntries(v, entries) + [CLOSE_OBJECT]
  }

  function PrintItems(ghost parent: Json, items: seq<Json>): Text
    requires forall i | 0 <= i < |items| :: Valid(items[i]) && items[i] < parent
    decreases parent, 0, |items|
  {
    if items == [] then []
    else if |items| == 1 then Print(items[0])
    else Print(items[0]) + [COMMA] + PrintItems(parent, items[1..])
  }

  function PrintEntries(ghost parent: Json, entries: seq<Entry>): Text
    requires forall i | 0 <= i < |entries| ::
               ValidText(entries[i].key) && Valid(entries[i].value) && entries[i].value < parent
    decreases parent, 0, |entries|
  {
    if entries == [] then []
    else if |entries| == 1 then PrintEntry(parent, entries[0])
    else PrintEntry(parent, entries[0]) + [COMMA] + PrintEntries(parent, entries[1..])
  }

  function PrintEntry(ghost parent: Json, entry: Entry): Text
    requires ValidText(entry.key) && Valid(entry.value) && entry.value < parent
    decreases parent, 0, 0
  {
    Quoted(entry.key) + [COLON] + Print(entry.value)
  }

  // ---------- a printed value can be read back ----------

  lemma HexInjective(c: int, d: int)
    requires 0 <= c < 0x1_0000 && 0 <= d < 0x1_0000 && UnicodeEscape(c) == UnicodeEscape(d)
    ensures c == d
  {
    var s, t := UnicodeEscape(c), UnicodeEscape(d);
    assert s[2] == t[2] && s[3] == t[3] && s[4] == t[4] && s[5] == t[5];
    assert c / 16 / 16 / 16 == d / 16 / 16 / 16 && c / 16 / 16 % 16 == d / 16 / 16 % 16;
    assert c / 16 / 16 == d / 16 / 16 && c / 16 % 16 == d / 16 % 16;
    assert c / 16 == d / 16 && c % 16 == d % 16;
  }

  lemma Front(a: Text, r: Text, b: Text, q: Text, n: nat)
    requires a + r == b + q && |a| == |b| == n
    ensures a == b && r == q
  {
    assert (a + r)[..n] == a && (b + q)[..n] == b;
    assert (a + r)[n..] == r && (b + q)[n..] == q;
  }

  lemma TokenShape(units: Text)
    requires units != [] && ValidText(units)
    ensures Token(units)[0] != QUOTE
    ensures Token(units)[0] == BACKSLASH ==> TokenLength(units) == 1 && |Token(units)| in {2, 6}
                                             && Token(units)[1] == (if |Token(units)| == 6 then 0x75 else Short(units[0]))
    ensures Token(units)[0] != BACKSLASH ==> Token(units) == units[..TokenLength(units)]
                                             && (IsHigh(units[0]) <==> TokenLength(units) == 2)
  {
  }

  lemma TokenReadable(s: Text, t: Text, r: Text, q: Text)
    requires s != [] && t != [] && ValidText(s) && ValidText(t)
    requires Token(s) + r == Token(t) + q
    ensures s[..TokenLength(s)] == t[..TokenLength(t)] && r == q
  {
    var a, b := Token(s), Token(t);
    TokenShape(s);
    TokenShape(t);
    assert (a + r)[0] == a[0] && (b + q)[0] == b[0];
    if a[0] == BACKSLASH {
      assert (a + r)[1] == a[1] && (b + q)[1] == b[1];
      Front(a, r, b, q, |a|);
      if |a| == 6 {
        HexInjective(s[0], t[0]);
      }
      assert s[0] == t[0];
    } else {
      Front(a, r, b, q, |a|);
    }
  }

  lemma EscapedHead(s: Text, r: Text)
    requires ValidText(s)
    ensures s == [] ==> Escaped(s) + [QUOTE] + r == [QUOTE] + r
    ensures s != [] ==> (Escaped(s) + [QUOTE] + r)[0] != QUOTE
  {
    if s != [] {
      TokenShape(s);
      assert (Escaped(s) + [QUOTE] + r)[0] == Token(s)[0];
    }
  }

  lemma {:induction false} EscapedReadable(s: Text, t: Text, r: Text, q: Text)
    requires ValidText(s) && ValidText(t)
    requires Escaped(s) + [QUOTE] + r == Escaped(t) + [QUOTE] + q
    ensures s == t && r == q
    decreases |s|
  {
    hide Token, TokenLength;
    EscapedHead(s, r);
    EscapedHead(t, q);
    if s == [] {
      Front([QUOTE], r, [QUOTE], q, 1);
    } else {
      var m, n := TokenLength(s), TokenLength(t);
      var u, v := Escaped(s[m..]) + [QUOTE] + r, Escaped(t[n..]) + [QUOTE] + q;
      assert Escaped(s) + [QUOTE] + r == Token(s) + u;
      assert Escaped(t) + [QUOTE] + q == Token(t) + v;
      TokenReadable(s, t, u, v);
      EscapedReadable(s[m..], t[n..], r, q);
      assert s == s[..m] + s[m..] && t == t[..n] + t[n..];
    }
  }

  lemma QuotedReadable(s: Text, t: Text, r: Text, q: Text)
    requires ValidText(s) && ValidText(t)
    requires Quoted(s) + r == Quoted(t) + q
    ensures s == t && r == q
  {
    assert Quoted(s) + r == [QUOTE] + (Escaped(s) + [QUOTE] + r);
    assert Quoted(t) + q == [QUOTE] + (Escaped(t) + [QUOTE] + q);
    Front([QUOTE], Escaped(s) + [QUOTE] + r, [QUOTE], Escaped(t) + [QUOTE] + q, 1);
    EscapedReadable(s, t, r, q);
  }

  /** What may follow a printed value. */
  predicate Stops(rest: Text) {
    rest == [] || rest[0] == COMMA || rest[0] == CLOSE_ARRAY || rest[0] == CLOSE_OBJECT
  }

  lemma DigitsHead(d: Text, r: Text)
    ensures d == [] ==> d + r == r
    ensures d != [] ==> d + r != [] && (d + r)[0] == d[0]
  {
  }

  lemma {:induction false} DigitsReadable(d: Text, e: Text, r: Text, q: Text)
    requires forall i | 0 <= i < |d| :: IsNumberUnit(d[i])
    requires forall i | 0 <= i < |e| :: IsNumberUnit(e[i])
    requires Stops(r) && Stops(q) && d + r == e + q
    ensures d == e && r == q
  {
    DigitsHead(d, r);
    DigitsHead(e, q);
    if d == [] {
    } else if e == [] {
    } else {
      assert (d + r)[0] == d[0] && (e + q)[0] == e[0];
      assert (d + r)[1..] == d[1..] + r && (e + q)[1..] == e[1..] + q;
      DigitsReadable(d[1..], e[1..], r, q);
      assert d == [d[0]] + d[1..] && e == [e[0]] + e[1..];
    }
  }

  /** The first unit of a printed value tells which kind of value it is. */
  function Kind(v: Json): nat {
    match v
    case Null => 0
    case Bool(b) => if b then 1 else 2
    case Number(_) => 3
    case Str(_) => 4
    case Arr(_) => 5
    case Obj(_) => 6
  }

  function KindOfUnit(c: int): nat {
    if c == 0x6E then 0
    else if c == 0x74 then 1
    else if c == 0x66 then 2
    else if c == QUOTE then 4
    else if c == OPEN_ARRAY then 5
    else if c == OPEN_OBJECT then 6
    else if IsNumberUnit(c) then 3
    else 7
  }

  lemma PrintBegins(v: Json)
    requires Valid(v)
    ensures Print(v) != [] && KindOfUnit(Print(v)[0]) == Kind(v) && Kind(v) < 7
  {
  }

  lemma {:induction false} PrintReadable(a: Json, b: Json, r: Text, q: Text)
    requires Valid(a) && Valid(b) && Stops(r) && Stops(q)
    requires Print(a) + r == Print(b) + q
    ensures a == b && r == q
    decreases a, 1, 0
  {
    PrintBegins(a);
    PrintBegins(b);
    assert (Print(a) + r)[0] == Print(a)[0] && (Print(b) + q)[0] == Print(b)[0];
    assert Kind(a) == Kind(b);
    match a
    case Null => Front(Print(a), r, Print(b), q, 4);
    case Bool(_) => Front(Print(a), r, Print(b), q, |Print(a)|);
    case Number(d) => DigitsReadable(d, b.digits, r, q);
    case Str(units) => QuotedReadable(units, b.units, r, q);
    case Arr(_) => ArraysReadable(a, b, r, q);
    case Obj(_) => ObjectsReadable(a, b, r, q);
  }

  lemma {:induction false} ArraysReadable(a: Json, b: Json, r: Text, q: Text)
    requires a.Arr? && b.Arr? && Valid(a) && Valid(b)
    requires Print(a) + r == Print(b) + q
    ensures a == b && r == q
    decreases a, 0, |a.items| + 1
  {
    var x, y := PrintItems(a, a.items) + [CLOSE_ARRAY] + r, PrintItems(b, b.items) + [CLOSE_ARRAY] + q;
    assert Print(a) + r == [OPEN_ARRAY] + x && Print(b) + q == [OPEN_ARRAY] + y;
    Front([OPEN_ARRAY], x, [OPEN_ARRAY], y, 1);
    ItemsReadable(a, b, a.items, b.items, r, q);
  }

  lemma {:induction false} ObjectsReadable(a: Json, b: Json, r: Text, q: Text)
    requires a.Obj? && b.Obj? && Valid(a) && Valid(b)
    requires Print(a) + r == Print(b) + q
    ensures a == b && r == q
    decreases a, 0, |a.entries| + 1
  {
    var x, y := PrintEntries(a, a.entries) + [CLOSE_OBJECT] + r, PrintEntries(b, b.entries) + [CLOSE_OBJECT] + q;
    assert Print(a) + r == [OPEN_OBJECT] + x && Print(b) + q == [OPEN_OBJECT] + y;
    Front([OPEN_OBJECT], x, [OPEN_OBJECT], y, 1);
    EntriesReadable(a, b, a.entries, b.entries, r, q);
  }

  ghost predicate ItemsOf(parent: Json, items: seq<Json>) {
    forall i | 0 <= i < |items| :: Valid(items[i]) && items[i] < parent
  }

  ghost predicate EntriesOf(parent: Json, entries: seq<Entry>) {
    forall i | 0 <= i < |entries| :: ValidText(entries[i].key) && Valid(entries[i].value) && entries[i].value < parent
  }

  /** What follows the first item. */
  ghost function AfterItem(parent: Json, items: seq<Json>, r: Text): Text
    requires ItemsOf(parent, items) && items != []
  {
    if |items| == 1 then [CLOSE_ARRAY] + r else [COMMA] + (PrintItems(parent, items[1..]) + [CLOSE_ARRAY] + r)
  }

  lemma ItemsSplit(parent: Json, items: seq<Json>, r: Text)
    requires ItemsOf(parent, items) && items != []
    ensures PrintItems(parent, items) + [CLOSE_ARRAY] + r == Print(items[0]) + AfterItem(parent, items, r)
  {
  }

  lemma ItemsHead(parent: Json, items: seq<Json>, r: Text)
    requires ItemsOf(parent, items)
    ensures items == [] ==> PrintItems(parent, items) + [CLOSE_ARRAY] + r == [CLOSE_ARRAY] + r
    ensures items != [] ==> (PrintItems(parent, items) + [CLOSE_ARRAY] + r)[0] != CLOSE_ARRAY
  {
    if items != [] {
      ItemsSplit(parent, items, r);
      PrintBegins(items[0]);
      assert (PrintItems(parent, items) + [CLOSE_ARRAY] + r)[0] == Print(items[0])[0];
    }
  }

  lemma {:induction false} ItemsReadable(a: Json, b: Json, xs: seq<Json>, ys: seq<Json>, r: Text, q: Text)
    requires ItemsOf(a, xs) && ItemsOf(b, ys)
    requires PrintItems(a, xs) + [CLOSE_ARRAY] + r == PrintItems(b, ys) + [CLOSE_ARRAY] + q
    ensures xs == ys && r == q
    decreases a, 0, |xs|
  {
    ItemsHead(a, xs, r);
    ItemsHead(b, ys, q);
    if xs == [] {
      Front([CLOSE_ARRAY], r, [CLOSE_ARRAY], q, 1);
    } else {
      ItemsSplit(a, xs, r);
      ItemsSplit(b, ys, q);
      var u, v := AfterItem(a, xs, r), AfterItem(b, ys, q);
      PrintReadable(xs[0], ys[0], u, v);
      assert u[0] == v[0];
      Front([u[0]], u[1..], [v[0]], v[1..], 1);
      if |xs| > 1 {
        assert u[1..] == PrintItems(a, xs[1..]) + [CLOSE_ARRAY] + r;
        assert v[1..] == PrintItems(b, ys[1..]) + [CLOSE_ARRAY] + q;
        ItemsReadable(a, b, xs[1..], ys[1..], r, q);
      } else {
        assert u[1..] == r && v[1..] == q;
      }
      assert xs == [xs[0]] + xs[1..] && ys == [ys[0]] + ys[1..];
    }
  }

  ghost function AfterEntry(parent: Json, entries: seq<Entry>, r: Text): Text
    requires EntriesOf(parent, entries) && entries != []
  {
    if |entries| == 1 then [CLOSE_OBJECT] + r else [COMMA] + (PrintEntries(parent, entries[1..]) + [CLOSE_OBJECT] + r)
  }

  lemma EntriesSplit(parent: Json, entries: seq<Entry>, r: Text)
    requires EntriesOf(parent, entries) && entries != []
    ensures PrintEntries(parent, entries) + [CLOSE_OBJECT] + r
         == PrintEntry(parent, entries[0]) + AfterEntry(parent, entries, r)
  {
    hide PrintEntry;
  }

  lemma EntrySplit(parent: Json, entry: Entry, rest: Text)
    requires ValidText(entry.key) && Valid(entry.value) && entry.value < parent
    ensures PrintEntry(parent, entry) + rest == Quoted(entry.key) + ([COLON] + (Print(entry.value) + rest))
  {
    hide Quoted, Print;
  }

  lemma EntriesHead(parent: Json, entries: seq<Entry>, r: Text)
    requires EntriesOf(parent, entries)
    ensures entries == [] ==> PrintEntries(parent, entries) + [CLOSE_OBJECT] + r == [CLOSE_OBJECT] + r
    ensures entries != [] ==> (PrintEntries(parent, entries) + [CLOSE_OBJECT] + r)[0] == QUOTE
  {
    if entries != [] {
      EntriesSplit(parent, entries, r);
      EntrySplit(parent, entries[0], AfterEntry(parent, entries, r));
    }
  }

  lemma {:induction false} EntriesReadable(a: Json, b: Json, xs: seq<Entry>, ys: seq<Entry>, r: Text, q: Text)
    requires EntriesOf(a, xs) && EntriesOf(b, ys)
    requires PrintEntries(a, xs) + [CLOSE_OBJECT] + r == PrintEntries(b, ys) + [CLOSE_OBJECT] + q
    ensures xs == ys && r == q
    decreases a, 0, |xs|
  {
    EntriesHead(a, xs, r);
    EntriesHead(b, ys, q);
    if xs == [] {
      Front([CLOSE_OBJECT], r, [CLOSE_OBJECT], q, 1);
    } else {
      EntriesSplit(a, xs, r);
      EntriesSplit(b, ys, q);
      var u, v := AfterEntry(a, xs, r), AfterEntry(b, ys, q);
      EntrySplit(a, xs[0], u);
      EntrySplit(b, ys[0], v);
      var m, n := Print(xs[0].value) + u, Print(ys[0].value) + v;
      QuotedReadable(xs[0].key, ys[0].key, [COLON] + m, [COLON] + n);
      Front([COLON], m, [COLON], n, 1);
      PrintReadable(xs[0].value, ys[0].value, u, v);
      Front([u[0]], u[1..], [v[0]], v[1..], 1);
      if |xs| > 1 {
        assert u[1..] == PrintEntries(a, xs[1..]) + [CLOSE_OBJECT] + r;
        assert v[1..] == PrintEntries(b, ys[1..]) + [CLOSE_OBJECT] + q;
        EntriesReadable(a, b, xs[1..], ys[1..], r, q);
      } else {
        assert u[1..] == r && v[1..] == q;
      }
      assert xs == [xs[0]] + xs[1..] && ys == [ys[0]] + ys[1..];
    }
  }

  // ---------- the canonical form ----------

  function KeyOf(e: Entry): Key { e.key }

  function ByKey(entries: seq<Entry>): seq<Entry> { SortBy(entries, KeyOf) }

  lemma ByKeyKeeps(entries: seq<Entry>)
    ensures |ByKey(entries)| == |entries|
    ensures forall e :: e in ByKey(entries) <==> e in entries
    ensures Sorted(ByKey(entries), KeyOf)
  {
    SortByIsStableSort(entries, KeyOf);
    var m, n := multiset(ByKey(entries)), multiset(entries);
    assert |m| == |ByKey(entries)| && |n| == |entries|;
    forall e ensures e in ByKey(entries) <==> e in entries {
      assert e in m <==> e in n;
    }
  }

  lemma SortedEntriesOf(parent: Json)
    requires parent.Obj? && Valid(parent)
    ensures EntriesOf(parent, ByKey(parent.entries))
  {
    ByKeyKeeps(parent.entries);
    forall i | 0 <= i < |parent.entries|
      ensures ValidText(ByKey(parent.entries)[i].key) && Valid(ByKey(parent.entries)[i].value)
              && ByKey(parent.entries)[i].value < parent
    {
      assert ByKey(parent.entries)[i] in parent.entries;
    }
  }

  /** canonicalJiraJson */
  function Canonical(v: Json): Text
    requires Valid(v)
    decreases v, 1, 0
  {
    match v
    case Arr(items) => [OPEN_ARRAY] + CanonicalItems(v, items) + [CLOSE_ARRAY]
    case Obj(entries) =>
      SortedEntriesOf(v);
      [OPEN_OBJECT] + CanonicalEntries(v, ByKey(entries)) + [CLOSE_OBJECT]
    case _ => Print(v)
  }

  function CanonicalItems(ghost parent: Json, items: seq<Json>): Text
    requires ItemsOf(parent, items)
    decreases parent, 0, |items|
  {
    if items == [] then []
    else if |items| == 1 then Canonical(items[0])
    else Canonical(items[0]) + [COMMA] + CanonicalItems(parent, items[1..])
  }

  function CanonicalEntries(ghost parent: Json, entries: seq<Entry>): Text
    requires EntriesOf(parent, entries)
    decreases parent, 0, |entries|
  {
    if entries == [] then []
    else
      var first := Quoted(entries[0].key) + [COLON] + Canonical(entries[0].value);
      if |entries| == 1 then first else first + [COMMA] + CanonicalEntries(parent, entries[1..])
  }

  /** The value with every object's entries in key order. */
  ghost function Normal(v: Json): (n: Json)
    requires Valid(v)
    decreases v, 1, 0
  {
    match v
    case Arr(items) => Arr(NormalItems(v, items))
    case Obj(entries) =>
      SortedEntriesOf(v);
      Obj(NormalEntries(v, ByKey(entries)))
    case _ => v
  }

  ghost function NormalItems(parent: Json, items: seq<Json>): (n: seq<Json>)
    requires ItemsOf(parent, items)
    ensures |n| == |items| && forall i | 0 <= i < |items| :: n[i] == Normal(items[i])
    decreases parent, 0, |items|
  {
    if items == [] then [] else [Normal(items[0])] + NormalItems(parent, items[1..])
  }

  ghost function NormalEntries(parent: Json, entries: seq<Entry>): (n: seq<Entry>)
    requires EntriesOf(parent, entries)
    ensures |n| == |entries|
    ensures forall i | 0 <= i < |entries| :: n[i] == Entry(entries[i].key, Normal(entries[i].value))
    decreases parent, 0, |entries|
  {
    if entries == [] then []
    else [Entry(entries[0].key, Normal(entries[0].value))] + NormalEntries(parent, entries[1..])
  }

  lemma SortedKeysIncrease(entries: seq<Entry>)
    requires DistinctKeys(entries)
    ensures Increasing(Keys(ByKey(entries))) && DistinctKeys(ByKey(entries))
  {
    var sorted := ByKey(entries);
    ByKeyKeeps(entries);
    SortByKeepsUnique(entries, KeyOf);
    forall i, j | 0 <= i < j < |sorted| ensures Less(sorted[i].key, sorted[j].key) && sorted[i].key != sorted[j].key {
      assert LessEq(KeyOf(sorted[i]), KeyOf(sorted[j])) && KeyOf(sorted[i]) != KeyOf(sorted[j]);
      LessTotal(sorted[i].key, sorted[j].key);
    }
  }

  lemma {:induction false} NormalIsValid(v: Json)
    requires Valid(v)
    ensures Valid(Normal(v))
    decreases v
  {
    match v
    case Arr(items) =>
      forall i | 0 <= i < |items| ensures Valid(Normal(items[i])) {
        NormalIsValid(items[i]);
      }
    case Obj(entries) =>
      SortedEntriesOf(v);
      var sorted := ByKey(entries);
      forall i | 0 <= i < |sorted| ensures Valid(Normal(sorted[i].value)) {
        NormalIsValid(sorted[i].value);
      }
      SortedKeysIncrease(entries);
    case _ =>
  }

  /** Sorting while printing is printing the sorted value. */
  lemma {:induction false} CanonicalPrintsNormal(v: Json)
    requires Valid(v)
    ensures Valid(Normal(v)) && Canonical(v) == Print(Normal(v))
    decreases v, 1, 0
  {
    NormalIsValid(v);
    match v
    case Arr(items) => CanonicalItemsPrint(v, items, Normal(v), Normal(v).items);
    case Obj(entries) =>
      SortedEntriesOf(v);
      CanonicalEntriesPrint(v, ByKey(entries), Normal(v), Normal(v).entries);
    case _ =>
  }

  lemma {:induction false} CanonicalItemsPrint(v: Json, items: seq<Json>, n: Json, normal: seq<Json>)
    requires ItemsOf(v, items) && ItemsOf(n, normal)
    requires |normal| == |items| && forall i | 0 <= i < |items| :: normal[i] == Normal(items[i])
    ensures CanonicalItems(v, items) == PrintItems(n, normal)
    decreases v, 0, |items|
  {
    if items != [] {
      CanonicalPrintsNormal(items[0]);
      CanonicalItemsPrint(v, items[1..], n, normal[1..]);
    }
  }

  lemma {:induction false} CanonicalEntriesPrint(v: Json, entries: seq<Entry>, n: Json, normal: seq<Entry>)
    requires EntriesOf(v, entries) && EntriesOf(n, normal)
    requires |normal| == |entries|
    requires forall i | 0 <= i < |entries| :: normal[i] == Entry(entries[i].key, Normal(entries[i].value))
    ensures CanonicalEntries(v, entries) == PrintEntries(n, normal)
    decreases v, 0, |entries|
  {
    if entries != [] {
      CanonicalPrintsNormal(entries[0].value);
      CanonicalEntriesPrint(v, entries[1..], n, normal[1..]);
    }
  }

  // ---------- equality up to key order ----------

  /** The same JSON value: objects are compared as sets of entries. */
  ghost predicate Same(a: Json, b: Json)
    decreases a
  {
    match a
    case Arr(items) => b.Arr? && |b.items| == |items| && forall i | 0 <= i < |items| :: Same(items[i], b.items[i])
    case Obj(entries) =>
      && b.Obj?
      && (forall i | 0 <= i < |entries| :: Matched(entries[i], b.entries))
      && (forall j | 0 <= j < |b.entries| :: HasKey(entries, b.entries[j].key))
    case _ => a == b
  }

  ghost predicate Matched(e: Entry, entries: seq<Entry>)
    decreases e
  {
    exists j | 0 <= j < |entries| :: entries[j].key == e.key && Same(e.value, entries[j].value)
  }

  ghost predicate HasKey(entries: seq<Entry>, key: Key) {
    exists i | 0 <= i < |entries| :: entries[i].key == key
  }

  lemma {:induction false} NormalDecidesSame(a: Json, b: Json)
    requires Valid(a) && Valid(b)
    ensures Normal(a) == Normal(b) <==> Same(a, b)
    decreases a, 1
  {
    match a
    case Arr(_) =>
      if b.Arr? {
        NormalDecidesArrays(a, b);
      }
    case Obj(_) =>
      if b.Obj? {
        if Normal(a) == Normal(b) {
          EqualNormalsAreSame(a, b);
        }
        if Same(a, b) {
          SameHaveEqualNormals(a, b);
        }
      }
    case _ =>
  }

  lemma {:induction false} NormalDecidesArrays(a: Json, b: Json)
    requires Valid(a) && Valid(b) && a.Arr? && b.Arr?
    ensures Normal(a) == Normal(b) <==> Same(a, b)
    decreases a, 0
  {
    if |a.items| == |b.items| {
      var m, n := NormalItems(a, a.items), NormalItems(b, b.items);
      forall i | 0 <= i < |a.items| ensures m[i] == n[i] <==> Same(a.items[i], b.items[i]) {
        NormalDecidesSame(a.items[i], b.items[i]);
      }
      assert m == n <==> forall i | 0 <= i < |m| :: m[i] == n[i];
    }
  }

  /** Sorted, the entries have the same keys and values with equal normal forms, one by one. */
  ghost predicate Alike(xs: seq<Entry>, ys: seq<Entry>)
    requires forall i | 0 <= i < |xs| :: Valid(xs[i].value)
    requires forall i | 0 <= i < |ys| :: Valid(ys[i].value)
  {
    |xs| == |ys| && forall i | 0 <= i < |xs| :: xs[i].key == ys[i].key && Normal(xs[i].value) == Normal(ys[i].value)
  }

  lemma NormalObjects(a: Json, b: Json)
    requires Valid(a) && Valid(b) && a.Obj? && b.Obj?
    ensures EntriesOf(a, ByKey(a.entries)) && EntriesOf(b, ByKey(b.entries))
    ensures Normal(a) == Normal(b) <==> Alike(ByKey(a.entries), ByKey(b.entries))
  {
    SortedEntriesOf(a);
    SortedEntriesOf(b);
    var s, t := ByKey(a.entries), ByKey(b.entries);
    var m, n := NormalEntries(a, s), NormalEntries(b, t);
    if |s| == |t| {
      assert m == n <==> forall i | 0 <= i < |m| :: m[i] == n[i];
    }
  }

  lemma {:induction false} EqualNormalsAreSame(a: Json, b: Json)
    requires Valid(a) && Valid(b) && a.Obj? && b.Obj? && Normal(a) == Normal(b)
    ensures Same(a, b)
    decreases a, 0
  {
    hide ByKey, HasKey, Matched;
    NormalObjects(a, b);
    forall i | 0 <= i < |a.entries| ensures Matched(a.entries[i], b.entries) {
      var k := SortedAt(a.entries, i);
      var j := UnsortedAt(b.entries, k);
      NormalDecidesSame(a.entries[i].value, b.entries[j].value);
      MatchedBy(a.entries[i], b.entries, j);
    }
    forall j | 0 <= j < |b.entries| ensures HasKey(a.entries, b.entries[j].key) {
      var k := SortedAt(b.entries, j);
      var i := UnsortedAt(a.entries, k);
      HasKeyAt(a.entries, i);
    }
  }

  lemma MatchedBy(e: Entry, entries: seq<Entry>, j: nat)
    requires j < |entries| && entries[j].key == e.key && Same(e.value, entries[j].value)
    ensures Matched(e, entries)
  {
  }

  lemma HasKeyAt(entries: seq<Entry>, i: nat)
    requires i < |entries|
    ensures HasKey(entries, entries[i].key)
  {
  }

  lemma {:induction false} SameHaveEqualNormals(a: Json, b: Json)
    requires Valid(a) && Valid(b) && a.Obj? && b.Obj? && Same(a, b)
    ensures Normal(a) == Normal(b)
    decreases a, 0
  {
    hide ByKey, HasKey, Matched;
    NormalObjects(a, b);
    var s, t := ByKey(a.entries), ByKey(b.entries);
    forall i | 0 <= i < |a.entries| ensures HasKey(b.entries, a.entries[i].key) {
      var j := MatchOf(a.entries[i], b.entries);
      HasKeyAt(b.entries, j);
    }
    SameKeys(a.entries, b.entries);
    forall k | 0 <= k < |s| ensures s[k].key == t[k].key && Normal(s[k].value) == Normal(t[k].value) {
      assert Keys(s)[k] == Keys(t)[k];
      var i := UnsortedAt(a.entries, k);
      var l := UnsortedAt(b.entries, k);
      var j := MatchOf(a.entries[i], b.entries);
      assert j == l;
      NormalDecidesSame(a.entries[i].value, b.entries[j].value);
    }
  }

  lemma MatchOf(e: Entry, entries: seq<Entry>) returns (j: nat)
    requires Matched(e, entries)
    ensures j < |entries| && entries[j].key == e.key && Same(e.value, entries[j].value)
  {
    j :| j < |entries| && entries[j].key == e.key && Same(e.value, entries[j].value);
  }

  lemma SortedAt(xs: seq<Entry>, i: nat) returns (k: nat)
    requires i < |xs|
    ensures k < |ByKey(xs)| == |xs| && ByKey(xs)[k] == xs[i]
  {
    ByKeyKeeps(xs);
    assert xs[i] in ByKey(xs);
    k :| k < |ByKey(xs)| && ByKey(xs)[k] == xs[i];
  }

  lemma UnsortedAt(xs: seq<Entry>, k: nat) returns (i: nat)
    requires k < |ByKey(xs)|
    ensures i < |xs| && xs[i] == ByKey(xs)[k]
  {
    ByKeyKeeps(xs);
    assert ByKey(xs)[k] in xs;
    i :| i < |xs| && xs[i] == ByKey(xs)[k];
  }

  ghost predicate Increasing(ks: seq<Key>) {
    forall i, j | 0 <= i < j < |ks| :: Less(ks[i], ks[j])
  }

  lemma {:induction false} IncreasingUnique(ks: seq<Key>, ls: seq<Key>)
    requires Increasing(ks) && Increasing(ls)
    requires forall k :: k in ks <==> k in ls
    ensures ks == ls
  {
    assert ks != [] ==> ks[0] in ls;
    assert ls != [] ==> ls[0] in ks;
    if ks == [] {
    } else {
      assert ks[0] in ls && ls[0] in ks;
      var i :| 0 <= i < |ls| && ls[i] == ks[0];
      var j :| 0 <= j < |ks| && ks[j] == ls[0];
      LessTotal(ks[0], ls[0]);
      assert ks[0] == ls[0];
      forall k ensures k in ks[1..] <==> k in ls[1..] {
        LessTotal(k, k);
        assert k in ks[1..] ==> k in ks && k != ks[0];
        assert k in ls[1..] ==> k in ls && k != ls[0];
        assert k in ks <==> k == ks[0] || k in ks[1..];
        assert k in ls <==> k == ls[0] || k in ls[1..];
      }
      IncreasingUnique(ks[1..], ls[1..]);
      assert ks == [ks[0]] + ks[1..] && ls == [ls[0]] + ls[1..];
    }
  }

  ghost function Keys(entries: seq<Entry>): seq<Key> {
    seq(|entries|, i requires 0 <= i < |entries| => entries[i].key)
  }

  lemma SameKeys(xs: seq<Entry>, ys: seq<Entry>)
    requires DistinctKeys(xs) && DistinctKeys(ys)
    requires forall i | 0 <= i < |xs| :: HasKey(ys, xs[i].key)
    requires forall j | 0 <= j < |ys| :: HasKey(xs, ys[j].key)
    ensures Keys(ByKey(xs)) == Keys(ByKey(ys))
    ensures |ByKey(xs)| == |Keys(ByKey(xs))| == |ByKey(ys)|
  {
    hide HasKey;
    SortedKeysIncrease(xs);
    SortedKeysIncrease(ys);
    forall k ensures k in Keys(ByKey(xs)) <==> k in Keys(ByKey(ys)) {
      KeysOfSorted(xs, k);
      KeysOfSorted(ys, k);
      if HasKey(xs, k) {
        var i := KeyAt(xs, k);
      }
      if HasKey(ys, k) {
        var j := KeyAt(ys, k);
      }
    }
    hide ByKey;
    IncreasingUnique(Keys(ByKey(xs)), Keys(ByKey(ys)));
    assert |Keys(ByKey(xs))| == |ByKey(xs)| && |Keys(ByKey(ys))| == |ByKey(ys)|;
  }

  lemma KeyAt(entries: seq<Entry>, key: Key) returns (i: nat)
    requires HasKey(entries, key)
    ensures i < |entries| && entries[i].key == key
  {
    i :| i < |entries| && entries[i].key == key;
  }

  lemma KeysOfSorted(entries: seq<Entry>, k: Key)
    ensures k in Keys(ByKey(entries)) <==> HasKey(entries, k)
  {
    hide ByKey;
    var sorted := ByKey(entries);
    if k in Keys(sorted) {
      var j :| 0 <= j < |sorted| && Keys(sorted)[j] == k;
      var i := UnsortedAt(entries, j);
    }
    if HasKey(entries, k) {
      var i := KeyAt(entries, k);
      var j := SortedAt(entries, i);
      assert Keys(sorted)[j] == k;
    }
  }

  /** Two JSON values have the same canonical text exactly when they are equal up to the order
      of object keys. */
  lemma CanonicalDecidesSame(a: Json, b: Json)
    requires Valid(a) && Valid(b)
    ensures Canonical(a) == Canonical(b) <==> Same(a, b)
  {
    CanonicalPrintsNormal(a);
    CanonicalPrintsNormal(b);
    NormalDecidesSame(a, b);
    if Canonical(a) == Canonical(b) {
      assert Print(Normal(a)) + [] == Print(Normal(b)) + [];
      PrintReadable(Normal(a), Normal(b), [], []);
    }
  }

  /** JSON.stringify alone, which keeps the entry order, is injective. */
  lemma StringifyInjective(a: Json, b: Json)
    requires Valid(a) && Valid(b) && Print(a) == Print(b)
    ensures a == b
  {
    assert Print(a) + [] == Print(b) + [];
    PrintReadable(a, b, [], []);
  }
}
