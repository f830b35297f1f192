/** normalizeJiraMigrationManifestV2 (Manifest.ts). A section is a list of items, each with the
    key its section is sorted by, its lists of ids and its changes; the rest of an item and of
    the manifest is carried along. */
module Manifest {
  import opened Wrappers
  import opened Sorting

  datatype Change = Change(fieldId: string, from: Option<string>, to: Option<string>, rest: string)

  /** `idLists` are a workflow's statusIds, an issue's labelIds and componentIds, or the
      issueIds of an epic, sprint or version; `changes` are a changelog's. */
  datatype Item = Item(key: string, idLists: seq<seq<string>>, changes: seq<Change>, rest: string)

  datatype ManifestV2 = ManifestV2(header: string, sections: seq<seq<Item>>)

  function OrEmpty(s: Option<string>): string {
    if s.Some? then s.value else ""
  }

  function ChangeKey(c: Change): Key {
    Utf16(c.fieldId + "\0" + OrEmpty(c.from) + "\0" + OrEmpty(c.to))
  }

  function ItemKey(item: Item): Key { Utf16(item.key) }

  function SortStrings(values: seq<string>): seq<string> { SortBy(values, Utf16) }

  function Each<A, B>(xs: seq<A>, f: A -> B): (ys: seq<B>)
    ensures |ys| == |xs| && forall i | 0 <= i < |xs| :: ys[i] == f(xs[i])
  {
    seq(|xs|, i requires 0 <= i < |xs| => f(xs[i]))
  }

  function NormalItem(item: Item): Item {
    item.(idLists := Each(item.idLists, SortStrings), changes := SortBy(item.changes, ChangeKey))
  }

  function NormalSection(items: seq<Item>): seq<Item> { Each(SortBy(items, ItemKey), NormalItem) }

  function Normalize(m: ManifestV2): ManifestV2 {
    m.(sections := Each(m.sections, NormalSection))
  }

  // ---------- sorting first or mapping first ----------

  lemma {:induction false} InsertThenMap(item: Item, sorted: seq<Item>)
    ensures Each(InsertBy(item, sorted, ItemKey), NormalItem)
         == InsertBy(NormalItem(item), Each(sorted, NormalItem), ItemKey)
  {
    if sorted != [] && !LessEq(ItemKey(item), ItemKey(sorted[0])) {
      InsertThenMap(item, sorted[1..]);
      assert Each(sorted, NormalItem)[1..] == Each(sorted[1..], NormalItem);
    }
  }

  lemma {:induction false} SortThenMap(items: seq<Item>)
    ensures NormalSection(items) == SortBy(Each(items, NormalItem), ItemKey)
  {
    if items != [] {
      SortThenMap(items[1..]);
      InsertThenMap(items[0], SortBy(items[1..], ItemKey));
      assert Each(items, NormalItem)[1..] == Each(items[1..], NormalItem);
    }
  }

  // ---------- idempotence ----------

  lemma NormalItemIdempotent(item: Item)
    ensures NormalItem(NormalItem(item)) == NormalItem(item)
  {
    SortByIdempotent(item.changes, ChangeKey);
    forall i | 0 <= i < |item.idLists| ensures SortStrings(SortStrings(item.idLists[i])) == SortStrings(item.idLists[i]) {
      SortByIdempotent(item.idLists[i], Utf16);
    }
    assert Each(Each(item.idLists, SortStrings), SortStrings) == Each(item.idLists, SortStrings);
  }

  lemma NormalSectionIdempotent(items: seq<Item>)
    ensures NormalSection(NormalSection(items)) == NormalSection(items)
  {
    var mapped := Each(items, NormalItem);
    SortThenMap(items);
    SortByIdempotent(mapped, ItemKey);
    SortByIsStableSort(mapped, ItemKey);
    var sorted := SortBy(mapped, ItemKey);
    forall i | 0 <= i < |sorted| ensures NormalItem(sorted[i]) == sorted[i] {
      assert sorted[i] in multiset(mapped);
      var j :| 0 <= j < |mapped| && mapped[j] == sorted[i];
      NormalItemIdempotent(items[j]);
    }
    assert Each(sorted, NormalItem) == sorted;
  }

  lemma NormalizeIdempotent(m: ManifestV2)
    ensures Normalize(Normalize(m)) == Normalize(m)
  {
    forall s | 0 <= s < |m.sections| ensures NormalSection(NormalSection(m.sections[s])) == NormalSection(m.sections[s]) {
      NormalSectionIdempotent(m.sections[s]);
    }
    assert Each(Each(m.sections, NormalSection), NormalSection) == Each(m.sections, NormalSection);
  }

  // ---------- permutation ----------

  /** The same item up to the order of its lists. */
  ghost predicate SameItem(x: Item, y: Item) {
    && x.key == y.key && x.rest == y.rest
    && multiset(x.changes) == multiset(y.changes)
    && |x.idLists| == |y.idLists|
    && forall i | 0 <= i < |x.idLists| :: multiset(x.idLists[i]) == multiset(y.idLists[i])
  }

  /** The same section up to order: reorder inside the items, then reorder the items. */
  ghost predicate SameSection(xs: seq<Item>, ys: seq<Item>) {
    exists zs: seq<Item> :: AllSame(xs, zs) && multiset(zs) == multiset(ys)
  }

  ghost predicate AllSame(xs: seq<Item>, zs: seq<Item>) {
    |zs| == |xs| && forall i | 0 <= i < |xs| :: SameItem(xs[i], zs[i])
  }

  ghost predicate SameManifest(m: ManifestV2, n: ManifestV2) {
    && m.header == n.header && |m.sections| == |n.sections|
    && forall s | 0 <= s < |m.sections| :: SameSection(m.sections[s], n.sections[s])
  }

  lemma NormalItemPermutes(item: Item)
    ensures SameItem(item, NormalItem(item))
    ensures Sorted(NormalItem(item).changes, ChangeKey)
    ensures forall i | 0 <= i < |item.idLists| :: Sorted(NormalItem(item).idLists[i], Utf16)
  {
    SortByIsStableSort(item.changes, ChangeKey);
    forall i | 0 <= i < |item.idLists|
      ensures multiset(SortStrings(item.idLists[i])) == multiset(item.idLists[i])
      ensures Sorted(SortStrings(item.idLists[i]), Utf16)
    {
      SortByIsStableSort(item.idLists[i], Utf16);
    }
  }

  /** The items of a section stand in the order of their keys. */
  ghost predicate InKeyOrder(items: seq<Item>) {
    forall i, j | 0 <= i < j < |items| :: LessEq(Utf16(items[i].key), Utf16(items[j].key))
  }

  /** Nothing is lost, added or changed: every list is only reordered, into key order. */
  lemma NormalizePermutes(m: ManifestV2)
    ensures SameManifest(m, Normalize(m))
    ensures forall s | 0 <= s < |m.sections| :: InKeyOrder(Normalize(m).sections[s])
  {
    forall s | 0 <= s < |m.sections|
      ensures SameSection(m.sections[s], Normalize(m).sections[s]) && InKeyOrder(Normalize(m).sections[s])
    {
      var items := m.sections[s];
      SortThenMap(items);
      SortByIsStableSort(Each(items, NormalItem), ItemKey);
      forall i | 0 <= i < |items| ensures SameItem(items[i], NormalItem(items[i])) {
        NormalItemPermutes(items[i]);
      }
      assert AllSame(items, Each(items, NormalItem));
    }
  }

  // ---------- the order of changes ----------

  lemma {:induction false} Utf16Concat(a: string, b: string)
    ensures Utf16(a + b) == Utf16(a) + Utf16(b)
  {
    hide Units;
    if a == "" {
      assert a + b == b;
    } else {
      assert (a + b)[1..] == a[1..] + b;
      Utf16Concat(a[1..], b);
    }
  }

  lemma {:induction false} NoZeroUnit(s: string)
    requires '\0' !in s
    ensures Positive(Utf16(s))
  {
    if s != "" {
      NoZeroUnit(s[1..]);
    }
  }

  ghost predicate Positive(k: Key) { forall i | 0 <= i < |k| :: k[i] > 0 }

  /** Two parts parted by a zero are compared one after the other. */
  lemma {:induction false} LessByParts(a: Key, x: Key, b: Key, y: Key)
    requires Positive(a) && Positive(b)
    ensures Less(a + [0] + x, b + [0] + y) <==> Less(a, b) || (a == b && Less(x, y))
  {
    var s, t := a + [0] + x, b + [0] + y;
    if a == [] || b == [] {
      assert a == [] ==> s[0] == 0 && s[1..] == x;
      assert b == [] ==> t[0] == 0 && t[1..] == y;
      assert a != [] ==> s[0] == a[0] > 0;
      assert b != [] ==> t[0] == b[0] > 0;
    } else {
      assert s[0] == a[0] && s[1..] == a[1..] + [0] + x;
      assert t[0] == b[0] && t[1..] == b[1..] + [0] + y;
      LessByParts(a[1..], x, b[1..], y);
      assert a == [a[0]] + a[1..] && b == [b[0]] + b[1..];
    }
  }

  lemma PartedByZero(a: string, b: string)
    ensures Utf16(a + "\0" + b) == Utf16(a) + [0] + Utf16(b)
  {
    assert Utf16("\0") == [0] by {
      assert "\0"[1..] == "" && Units('\0') == [0];
    }
    hide Utf16;
    Utf16Concat(a + "\0", b);
    Utf16Concat(a, "\0");
  }

  lemma ChangeKeyParts(c: Change)
    ensures ChangeKey(c) == Utf16(c.fieldId) + [0] + (Utf16(OrEmpty(c.from)) + [0] + Utf16(OrEmpty(c.to)))
  {
    hide Utf16, OrEmpty;
    var from, to := OrEmpty(c.from), OrEmpty(c.to);
    assert c.fieldId + "\0" + from + "\0" + to == c.fieldId + "\0" + (from + "\0" + to);
    PartedByZero(c.fieldId, from + "\0" + to);
    PartedByZero(from, to);
  }

  /** Changes are ordered by field, then by what the field was, then by what it became, null as
      the empty string, as long as no field id and no old value contains the separator. */
  lemma ChangesOrderedByParts(c: Change, d: Change)
    requires '\0' !in c.fieldId && '\0' !in d.fieldId
    requires (c.from.Some? ==> '\0' !in c.from.value) && (d.from.Some? ==> '\0' !in d.from.value)
    ensures Less(ChangeKey(c), ChangeKey(d)) <==>
              || Less(Utf16(c.fieldId), Utf16(d.fieldId))
              || (c.fieldId == d.fieldId &&
                    var a, b := if c.from.Some? then c.from.value else "", if d.from.Some? then d.from.value else "";
                    var x, y := if c.to.Some? then c.to.value else "", if d.to.Some? then d.to.value else "";
                    Less(Utf16(a), Utf16(b)) || (a == b && Less(Utf16(x), Utf16(y))))
  {
    var a, b, x, y := OrEmpty(c.from), OrEmpty(d.from), OrEmpty(c.to), OrEmpty(d.to);
    ChangeKeyParts(c);
    ChangeKeyParts(d);
    NoZeroUnit(c.fieldId);
    NoZeroUnit(d.fieldId);
    NoZeroUnit(a);
    NoZeroUnit(b);
    if Utf16(c.fieldId) == Utf16(d.fieldId) {
      Utf16Injective(c.fieldId, d.fieldId);
    }
    if Utf16(a) == Utf16(b) {
      Utf16Injective(a, b);
    }
    hide ChangeKey, Utf16, Less;
    LessByParts(Utf16(c.fieldId), Utf16(a) + [0] + Utf16(x), Utf16(d.fieldId), Utf16(b) + [0] + Utf16(y));
    LessByParts(Utf16(a), Utf16(x), Utf16(b), Utf16(y));
  }

  // ---------- order independence ----------

  /** Keys identify: items by their section key, changes by their change key. */
  ghost predicate KeysIdentify(items: seq<Item>) {
    && UniqueKeys(items, ItemKey)
    && forall i | 0 <= i < |items| :: KeysTell(items[i].changes, ChangeKey)
  }

  lemma StringsTell(values: seq<string>)
    ensures KeysTell(values, Utf16)
  {
    forall i, j | 0 <= i < j < |values| && Utf16(values[i]) == Utf16(values[j]) ensures values[i] == values[j] {
      Utf16Injective(values[i], values[j]);
    }
  }

  lemma SameItemsNormalizeAlike(x: Item, y: Item)
    requires SameItem(x, y) && KeysTell(x.changes, ChangeKey)
    ensures NormalItem(x) == NormalItem(y)
  {
    SortByOfPermuted(x.changes, y.changes, ChangeKey);
    forall i | 0 <= i < |x.idLists| ensures SortStrings(x.idLists[i]) == SortStrings(y.idLists[i]) {
      StringsTell(x.idLists[i]);
      SortByOfPermuted(x.idLists[i], y.idLists[i], Utf16);
    }
    assert Each(x.idLists, SortStrings) == Each(y.idLists, SortStrings);
  }

  /** Two manifests that differ only in the order of their lists normalise to the same
      manifest, provided keys identify. */
  lemma NormalizeIgnoresOrder(m: ManifestV2, n: ManifestV2)
    requires SameManifest(m, n)
    requires forall s | 0 <= s < |m.sections| :: KeysIdentify(m.sections[s])
    ensures Normalize(m) == Normalize(n)
  {
    forall s | 0 <= s < |m.sections| ensures NormalSection(m.sections[s]) == NormalSection(n.sections[s]) {
      IdentifiedIsOrderFree(m.sections[s]);
      FreeSectionIgnoresOrder(m.sections[s], n.sections[s]);
    }
  }

  // ---------- exactly when the order does not matter ----------

  /** Changes that share a key are equal, and items that share a key have one normal form. */
  ghost predicate OrderFree(items: seq<Item>) {
    && (forall i | 0 <= i < |items| :: KeysTell(items[i].changes, ChangeKey))
    && KeysTell(Each(items, NormalItem), ItemKey)
  }

  lemma WithoutOne(x: Item, tail: seq<Item>, before: seq<Item>, after: seq<Item>)
    requires multiset([x] + tail) == multiset(before + [x] + after)
    ensures multiset(tail) == multiset(before + after)
  {
    assert multiset(tail) == multiset([x] + tail) - multiset{x};
    assert multiset(before + after) == multiset(before + [x] + after) - multiset{x};
  }

  lemma EachParts(before: seq<Item>, x: Item, after: seq<Item>)
    ensures Each(before + [x] + after, NormalItem) == Each(before, NormalItem) + [NormalItem(x)] + Each(after, NormalItem)
    ensures Each(before + after, NormalItem) == Each(before, NormalItem) + Each(after, NormalItem)
  {
    hide NormalItem;
  }

  lemma {:induction false} EachPermuted(xs: seq<Item>, ys: seq<Item>)
    requires multiset(xs) == multiset(ys)
    ensures multiset(Each(xs, NormalItem)) == multiset(Each(ys, NormalItem))
    decreases |xs|
  {
    hide NormalItem, Each;
    if xs == [] {
      assert ys == [] by {
        assert |multiset(xs)| == |xs| && |multiset(ys)| == |ys|;
      }
    } else {
      var x := xs[0];
      assert x in multiset(ys);
      var j :| 0 <= j < |ys| && ys[j] == x;
      var before, after := ys[..j], ys[j + 1..];
      assert xs == [x] + xs[1..] && ys == before + [x] + after;
      WithoutOne(x, xs[1..], before, after);
      EachPermuted(xs[1..], before + after);
      EachParts(before, x, after);
      SamePlusOne(NormalItem(x), Each(xs[1..], NormalItem), Each(before, NormalItem), Each(after, NormalItem));
      EachHead(xs);
    }
  }

  lemma EachHead(xs: seq<Item>)
    requires xs != []
    ensures Each(xs, NormalItem) == [NormalItem(xs[0])] + Each(xs[1..], NormalItem)
  {
    hide NormalItem;
  }

  lemma SamePlusOne(x: Item, tail: seq<Item>, before: seq<Item>, after: seq<Item>)
    requires multiset(tail) == multiset(before + after)
    ensures multiset([x] + tail) == multiset(before + [x] + after)
  {
  }

  lemma FreeSectionIgnoresOrder(xs: seq<Item>, ys: seq<Item>)
    requires SameSection(xs, ys) && OrderFree(xs)
    ensures NormalSection(xs) == NormalSection(ys)
  {
    var zs: seq<Item> :| AllSame(xs, zs) && multiset(zs) == multiset(ys);
    forall i | 0 <= i < |xs| ensures NormalItem(xs[i]) == NormalItem(zs[i]) {
      SameItemsNormalizeAlike(xs[i], zs[i]);
    }
    assert Each(xs, NormalItem) == Each(zs, NormalItem);
    EachPermuted(zs, ys);
    SortThenMap(xs);
    SortThenMap(ys);
    SortByOfPermuted(Each(zs, NormalItem), Each(ys, NormalItem), ItemKey);
  }

  lemma SameItself(xs: seq<Item>)
    ensures AllSame(xs, xs)
  {
  }

  lemma SwappedChanges(x: Item)
    requires !KeysTell(x.changes, ChangeKey)
    ensures exists y :: SameItem(x, y) && NormalItem(y) != NormalItem(x)
  {
    hide ChangeKey;
    var changes := x.changes;
    var a, b :| 0 <= a < b < |changes| && ChangeKey(changes[a]) == ChangeKey(changes[b]) && changes[a] != changes[b];
    SwapShows(changes, ChangeKey, a, b);
    var y := x.(changes := changes[a := changes[b]][b := changes[a]]);
    assert SameItem(x, y) && NormalItem(y).changes != NormalItem(x).changes;
  }

  /** Two changes of one item with a key in common: swapping them shows. */
  lemma SwappedChangesShow(xs: seq<Item>, i: nat)
    requires i < |xs| && !KeysTell(xs[i].changes, ChangeKey)
    ensures exists ys :: SameSection(xs, ys) && NormalSection(ys) != NormalSection(xs)
  {
    SwappedChanges(xs[i]);
    hide ChangeKey, ItemKey, KeysTell, NormalItem, SortBy;
    var x :| SameItem(xs[i], x) && NormalItem(x) != NormalItem(xs[i]);
    var ys := xs[i := x];
    AllSameButOne(xs, i, x);
    ReplacedShows(xs, i, x);
    assert SameSection(xs, ys);
  }

  lemma AllSameButOne(xs: seq<Item>, i: nat, x: Item)
    requires i < |xs| && SameItem(xs[i], x)
    ensures AllSame(xs, xs[i := x])
  {
  }

  lemma ReplacedShows(xs: seq<Item>, i: nat, x: Item)
    requires i < |xs| && NormalItem(x) != NormalItem(xs[i])
    ensures NormalSection(xs[i := x]) != NormalSection(xs)
  {
    hide NormalSection, NormalItem, ItemKey, SortBy, IsStableSort;
    var ns, ms := Each(xs, NormalItem), Each(xs[i := x], NormalItem);
    SortThenMap(xs);
    SortThenMap(xs[i := x]);
    SortByIsStableSort(ns, ItemKey);
    SortByIsStableSort(ms, ItemKey);
    assert ms == ns[i := NormalItem(x)];
    ReplacedDiffers(ns, i, NormalItem(x));
  }

  lemma ReplacedDiffers(xs: seq<Item>, i: nat, x: Item)
    requires i < |xs| && x != xs[i]
    ensures multiset(xs[i := x]) != multiset(xs)
  {
    var before, after := xs[..i], xs[i + 1..];
    assert xs == before + [xs[i]] + after && xs[i := x] == before + [x] + after;
    OneMore(before, xs[i], after, xs[i]);
    OneMore(before, x, after, xs[i]);
  }

  lemma OneMore(before: seq<Item>, x: Item, after: seq<Item>, y: Item)
    ensures multiset(before + [x] + after)[y] == multiset(before)[y] + multiset(after)[y] + if x == y then 1 else 0
  {
  }

  /** Two items with a key in common and different normal forms: swapping them shows. */
  lemma SwappedItemsShow(xs: seq<Item>)
    requires !KeysTell(Each(xs, NormalItem), ItemKey)
    ensures exists ys :: SameSection(xs, ys) && NormalSection(ys) != NormalSection(xs)
  {
    hide ItemKey, NormalItem, SortBy;
    var ns := Each(xs, NormalItem);
    var i, j :| 0 <= i < j < |ns| && ItemKey(ns[i]) == ItemKey(ns[j]) && ns[i] != ns[j];
    var ys := xs[i := xs[j]][j := xs[i]];
    SwapShows(ns, ItemKey, i, j);
    assert Each(ys, NormalItem) == ns[i := ns[j]][j := ns[i]];
    SortThenMap(xs);
    SortThenMap(ys);
    SameItself(xs);
    Swapped(xs, i, j);
    hide NormalSection, Each;
    assert SameSection(xs, ys);
  }

  lemma Swapped(xs: seq<Item>, i: nat, j: nat)
    requires i < j < |xs|
    ensures multiset(xs[i := xs[j]][j := xs[i]]) == multiset(xs)
  {
    assert xs == xs[..i] + [xs[i]] + xs[i + 1..j] + [xs[j]] + xs[j + 1..];
    assert xs[i := xs[j]][j := xs[i]] == xs[..i] + [xs[j]] + xs[i + 1..j] + [xs[i]] + xs[j + 1..];
  }

  /** A manifest normalises alike for every order of its lists if and only if, in every section,
      changes that share a key are equal and items that share a key have one normal form. */
  lemma NormalizeIgnoresOrderIff(m: ManifestV2)
    ensures (forall n :: SameManifest(m, n) ==> Normalize(n) == Normalize(m))
            <==> forall s | 0 <= s < |m.sections| :: OrderFree(m.sections[s])
  {
    if forall s | 0 <= s < |m.sections| :: OrderFree(m.sections[s]) {
      forall n | SameManifest(m, n) ensures Normalize(n) == Normalize(m) {
        forall s | 0 <= s < |m.sections| ensures NormalSection(m.sections[s]) == NormalSection(n.sections[s]) {
          FreeSectionIgnoresOrder(m.sections[s], n.sections[s]);
        }
      }
    } else {
      var s :| 0 <= s < |m.sections| && !OrderFree(m.sections[s]);
      OrderShows(m, s);
    }
  }

  lemma OrderShows(m: ManifestV2, s: nat)
    requires s < |m.sections| && !OrderFree(m.sections[s])
    ensures exists n :: SameManifest(m, n) && Normalize(n) != Normalize(m)
  {
    SectionShows(m.sections[s]);
    hide OrderFree;
    var ys :| SameSection(m.sections[s], ys) && NormalSection(ys) != NormalSection(m.sections[s]);
    OneSectionShows(m, s, ys);
  }

  lemma SectionShows(xs: seq<Item>)
    requires !OrderFree(xs)
    ensures exists ys :: SameSection(xs, ys) && NormalSection(ys) != NormalSection(xs)
  {
    hide KeysTell, NormalSection, SameSection;
    if i :| 0 <= i < |xs| && !KeysTell(xs[i].changes, ChangeKey) {
      SwappedChangesShow(xs, i);
    } else {
      SwappedItemsShow(xs);
    }
  }

  lemma OneSectionShows(m: ManifestV2, s: nat, ys: seq<Item>)
    requires s < |m.sections| && SameSection(m.sections[s], ys) && NormalSection(ys) != NormalSection(m.sections[s])
    ensures exists n :: SameManifest(m, n) && Normalize(n) != Normalize(m)
  {
    hide NormalSection;
    var n := m.(sections := m.sections[s := ys]);
    forall r | 0 <= r < |m.sections| ensures SameSection(m.sections[r], n.sections[r]) {
      SameItself(m.sections[r]);
    }
    assert Normalize(n).sections[s] == NormalSection(ys) && Normalize(m).sections[s] == NormalSection(m.sections[s]);
  }

  /** Keys that identify are enough. */
  lemma IdentifiedIsOrderFree(items: seq<Item>)
    requires KeysIdentify(items)
    ensures OrderFree(items)
  {
    var ns := Each(items, NormalItem);
    assert forall i | 0 <= i < |items| :: ItemKey(ns[i]) == ItemKey(items[i]);
  }

  /** A change from nothing and a change from the empty string have the same sort key, so a
      changelog with both keeps whatever order it came in. */
  lemma TiedChangesKeepTheirOrder()
    ensures var a, b := Change("f", None, Some("x"), ""), Change("f", Some(""), Some("x"), "");
            var i, j := Item("1", [], [a, b], ""), Item("1", [], [b, a], "");
            && SameItem(i, j) && NormalItem(i) != NormalItem(j)
            && !KeysTell(i.changes, ChangeKey)
  {
    var a, b := Change("f", None, Some("x"), ""), Change("f", Some(""), Some("x"), "");
    assert ChangeKey(a) == ChangeKey(b);
    SwapShows([a, b], ChangeKey, 0, 1);
    assert [a, b][0 := b][1 := a] == [b, a];
    assert [a, b][0] != [a, b][1];
  }
}
