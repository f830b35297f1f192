/** Stable sorting by a string key, as `toSorted(compareStrings)` does it, and the
    reference definition it is the only answer to. Strings are compared as ECMAScript
    does, code unit by code unit. */
module Sorting {
  type Key = seq<int>

  /** The UTF-16 code units of a character and of a string. */
  function Units(char_: char): Key {
    var c := char_ as int;
    if c < 0x1_0000 then [c] else [0xD800 + (c - 0x1_0000) / 0x400, 0xDC00 + (c - 0x1_0000) % 0x400]
  }

  function Utf16(s: string): Key { if s == "" then [] else Units(s[0]) + Utf16(s[1..]) }

  predicate Less(a: Key, b: Key) {
    b != [] && (a == [] || a[0] < b[0] || (a[0] == b[0] && Less(a[1..], b[1..])))
  }

  predicate LessEq(a: Key, b: Key) { !Less(b, a) }

  lemma LessTotal(a: Key, b: Key)
    ensures Less(a, b) || Less(b, a) || a == b
    ensures !(Less(a, b) && Less(b, a)) && !Less(a, a)
  {
    if a != [] && b != [] && a[0] == b[0] {
      LessTotal(a[1..], b[1..]);
      assert a == [a[0]] + a[1..] && b == [b[0]] + b[1..];
    }
  }

  /** Less means: at the first difference one has ended or has the smaller code unit. */
  lemma {:induction false} LessAtFirstDifference(a: Key, b: Key)
    ensures Less(a, b) <==>
              exists k :: 0 <= k <= |a| && k < |b| && a[..k] == b[..k] && (k == |a| || a[k] < b[k])
  {
    if b == [] || a == [] {
      assert a == [] && b != [] ==> a[..0] == b[..0];
    } else {
      var s, t := a[1..], b[1..];
      LessAtFirstDifference(s, t);
      assert a == [a[0]] + s && b == [b[0]] + t;
      if a[0] < b[0] {
        assert a[..0] == b[..0];
      } else if a[0] == b[0] && Less(s, t) {
        var k :| 0 <= k <= |s| && k < |t| && s[..k] == t[..k] && (k == |s| || s[k] < t[k]);
        assert a[..k + 1] == [a[0]] + s[..k] && b[..k + 1] == [b[0]] + t[..k];
      }
      if k :| 0 <= k <= |a| && k < |b| && a[..k] == b[..k] && (k == |a| || a[k] < b[k]) {
        if k > 0 {
          assert a[0] == a[..k][0] && b[0] == b[..k][0];
          assert s[..k - 1] == a[..k][1..] && t[..k - 1] == b[..k][1..];
        }
      }
    }
  }

  /** Characters of the basic plane are their own code units. */
  lemma {:induction false} BasicUnits(s: string)
    requires forall i | 0 <= i < |s| :: s[i] as int < 0x1_0000
    ensures |Utf16(s)| == |s| && forall i | 0 <= i < |s| :: Utf16(s)[i] == s[i] as int
  {
    if s != "" {
      BasicUnits(s[1..]);
    }
  }

  lemma LessTransitive(a: Key, b: Key, c: Key)
    requires Less(a, b) && Less(b, c)
    ensures Less(a, c)
  {
    if a != [] && b[0] == c[0] && a[0] == b[0] {
      LessTransitive(a[1..], b[1..], c[1..]);
    }
  }

  lemma LessEqTransitive(a: Key, b: Key, c: Key)
    requires LessEq(a, b) && LessEq(b, c)
    ensures LessEq(a, c)
  {
    LessTotal(a, b);
    LessTotal(b, c);
    if Less(c, a) && a != b && b != c {
      LessTransitive(a, b, c);
      LessTotal(a, c);
    }
  }

  function InsertBy<A>(x: A, sorted: seq<A>, key: A -> Key): seq<A> {
    if sorted == [] || LessEq(key(x), key(sorted[0])) then [x] + sorted
    else [sorted[0]] + InsertBy(x, sorted[1..], key)
  }

  function SortBy<A>(xs: seq<A>, key: A -> Key): seq<A> {
    if xs == [] then [] else InsertBy(xs[0], SortBy(xs[1..], key), key)
  }

  ghost predicate Sorted<A>(xs: seq<A>, key: A -> Key) {
    forall i, j :: 0 <= i < j < |xs| ==> LessEq(key(xs[i]), key(xs[j]))
  }

  function WithKey<A>(xs: seq<A>, key: A -> Key, k: Key): seq<A> {
    if xs == [] then []
    else (if key(xs[0]) == k then [xs[0]] else []) + WithKey(xs[1..], key, k)
  }

  /** Sorted, and elements of equal keys keep exactly their order: what a stable sort is. */
  ghost predicate IsStableSort<A(!new)>(xs: seq<A>, ys: seq<A>, key: A -> Key) {
    Sorted(ys, key) && forall k :: WithKey(ys, key, k) == WithKey(xs, key, k)
  }

  lemma {:induction false} InsertByElements<A>(x: A, sorted: seq<A>, key: A -> Key)
    ensures multiset(InsertBy(x, sorted, key)) == multiset{x} + multiset(sorted)
  {
    if sorted != [] && !LessEq(key(x), key(sorted[0])) {
      InsertByElements(x, sorted[1..], key);
      assert sorted == [sorted[0]] + sorted[1..];
    }
  }

  lemma {:induction false} InsertBySorted<A>(x: A, sorted: seq<A>, key: A -> Key)
    requires Sorted(sorted, key)
    ensures Sorted(InsertBy(x, sorted, key), key)
  {
    var r := InsertBy(x, sorted, key);
    if sorted == [] || LessEq(key(x), key(sorted[0])) {
      forall i, j | 0 <= i < j < |r| ensures LessEq(key(r[i]), key(r[j])) {
        if i == 0 && j > 1 {
          LessEqTransitive(key(x), key(sorted[0]), key(r[j]));
        }
      }
    } else {
      var rest := InsertBy(x, sorted[1..], key);
      InsertBySorted(x, sorted[1..], key);
      InsertByElements(x, sorted[1..], key);
      LessTotal(key(x), key(sorted[0]));
      forall y | y in rest ensures LessEq(key(sorted[0]), key(y)) {
        assert y in multiset(rest);
        assert y == x || y in sorted[1..];
      }
    }
  }

  lemma WithKeyCons<A>(x: A, rest: seq<A>, key: A -> Key, k: Key)
    ensures WithKey([x] + rest, key, k) == (if key(x) == k then [x] else []) + WithKey(rest, key, k)
  {
    assert ([x] + rest)[1..] == rest;
  }

  lemma {:induction false} InsertByStable<A>(x: A, sorted: seq<A>, key: A -> Key, k: Key)
    requires Sorted(sorted, key)
    ensures WithKey(InsertBy(x, sorted, key), key, k) == (if key(x) == k then [x] else []) + WithKey(sorted, key, k)
  {
    if sorted == [] || LessEq(key(x), key(sorted[0])) {
      WithKeyCons(x, sorted, key, k);
    } else {
      InsertByStable(x, sorted[1..], key, k);
      WithKeyCons(sorted[0], InsertBy(x, sorted[1..], key), key, k);
      LessTotal(key(x), key(sorted[0]));
      assert key(sorted[0]) == k ==> key(x) != k;
    }
  }

  lemma {:induction false} SortByIsStableSort<A(!new)>(xs: seq<A>, key: A -> Key)
    ensures IsStableSort(xs, SortBy(xs, key), key)
    ensures multiset(SortBy(xs, key)) == multiset(xs)
  {
    if xs != [] {
      SortByIsStableSort(xs[1..], key);
      forall k ensures WithKey(SortBy(xs, key), key, k) == WithKey(xs, key, k) {
        InsertByStable(xs[0], SortBy(xs[1..], key), key, k);
      }
      InsertBySorted(xs[0], SortBy(xs[1..], key), key);
      InsertByElements(xs[0], SortBy(xs[1..], key), key);
      assert xs == [xs[0]] + xs[1..];
    }
  }

  lemma WithKeyEmpty<A>(xs: seq<A>, key: A -> Key, k: Key)
    requires forall i :: 0 <= i < |xs| ==> key(xs[i]) != k
    ensures WithKey(xs, key, k) == []
  {
  }

  lemma WithKeyNonEmpty<A>(xs: seq<A>, key: A -> Key, i: nat)
    requires i < |xs|
    ensures WithKey(xs, key, key(xs[i])) != []
  {
    if i > 0 {
      WithKeyNonEmpty(xs[1..], key, i - 1);
    }
  }

  lemma SmallestKeysAgree<A(!new)>(ys: seq<A>, zs: seq<A>, key: A -> Key)
    requires ys != [] && Sorted(zs, key) && Sorted(ys, key)
    requires forall k :: WithKey(ys, key, k) == WithKey(zs, key, k)
    ensures zs != [] && LessEq(key(zs[0]), key(ys[0]))
  {
    WithKeyNonEmpty(ys, key, 0);
    if zs == [] || Less(key(ys[0]), key(zs[0])) {
      forall i | 0 <= i < |zs| ensures key(zs[i]) != key(ys[0]) {
        assert i == 0 || LessEq(key(zs[0]), key(zs[i]));
        LessTotal(key(ys[0]), key(zs[0]));
      }
      WithKeyEmpty(zs, key, key(ys[0]));
    }
  }

  /** There is only one stable sort of a list. */
  lemma {:induction false} StableSortUnique<A(!new)>(ys: seq<A>, zs: seq<A>, key: A -> Key)
    requires Sorted(ys, key) && Sorted(zs, key)
    requires forall k :: WithKey(ys, key, k) == WithKey(zs, key, k)
    ensures ys == zs
  {
    if ys == [] {
      if zs != [] {
        SmallestKeysAgree(zs, ys, key);
      }
    } else {
      SmallestKeysAgree(ys, zs, key);
      SmallestKeysAgree(zs, ys, key);
      LessTotal(key(ys[0]), key(zs[0]));
      assert WithKey(ys, key, key(ys[0]))[0] == ys[0] && WithKey(zs, key, key(zs[0]))[0] == zs[0];
      forall k ensures WithKey(ys[1..], key, k) == WithKey(zs[1..], key, k) {
        var n := if key(ys[0]) == k then 1 else 0;
        assert WithKey(ys, key, k)[n..] == WithKey(ys[1..], key, k);
        assert WithKey(zs, key, k)[n..] == WithKey(zs[1..], key, k);
      }
      StableSortUnique(ys[1..], zs[1..], key);
    }
  }

  lemma SortByIdempotent<A(!new)>(xs: seq<A>, key: A -> Key)
    ensures SortBy(SortBy(xs, key), key) == SortBy(xs, key)
  {
    var ys := SortBy(xs, key);
    SortByIsStableSort(xs, key);
    SortByIsStableSort(ys, key);
    StableSortUnique(SortBy(ys, key), ys, key);
  }

  ghost predicate UniqueKeys<A>(xs: seq<A>, key: A -> Key) {
    forall i, j :: 0 <= i < j < |xs| ==> key(xs[i]) != key(xs[j])
  }

  lemma UniqueKeyPicksOne<A>(xs: seq<A>, key: A -> Key, x: A)
    requires UniqueKeys(xs, key)
    ensures x in xs ==> WithKey(xs, key, key(x)) == [x]
  {
    if xs != [] && x in xs {
      if xs[0] == x {
        WithKeyEmpty(xs[1..], key, key(x));
      } else {
        UniqueKeyPicksOne(xs[1..], key, x);
      }
    }
  }

  lemma {:induction false} TwoOfAKey<A>(xs: seq<A>, key: A -> Key, i: nat, j: nat)
    requires i < j < |xs| && key(xs[i]) == key(xs[j])
    ensures |WithKey(xs, key, key(xs[i]))| >= 2
  {
    if i == 0 {
      WithKeyNonEmpty(xs[1..], key, j - 1);
    } else {
      TwoOfAKey(xs[1..], key, i - 1, j - 1);
    }
  }

  lemma SortByKeepsUnique<A(!new)>(xs: seq<A>, key: A -> Key)
    requires UniqueKeys(xs, key)
    ensures UniqueKeys(SortBy(xs, key), key)
  {
    var ys := SortBy(xs, key);
    SortByIsStableSort(xs, key);
    forall i, j | 0 <= i < j < |ys| ensures key(ys[i]) != key(ys[j]) {
      if key(ys[i]) == key(ys[j]) {
        TwoOfAKey(ys, key, i, j);
        assert ys[i] in multiset(xs);
        UniqueKeyPicksOne(xs, key, ys[i]);
      }
    }
  }

  // ---------- when the input order does not matter ----------

  /** Elements that share a key are equal. */
  ghost predicate KeysTell<A>(xs: seq<A>, key: A -> Key) {
    forall i, j :: 0 <= i < j < |xs| && key(xs[i]) == key(xs[j]) ==> xs[i] == xs[j]
  }

  lemma {:induction false} WithKeyRepeats<A>(xs: seq<A>, key: A -> Key, x: A)
    requires forall i :: 0 <= i < |xs| && key(xs[i]) == key(x) ==> xs[i] == x
    ensures |WithKey(xs, key, key(x))| == multiset(xs)[x]
    ensures forall i :: 0 <= i < |WithKey(xs, key, key(x))| ==> WithKey(xs, key, key(x))[i] == x
  {
    if xs != [] {
      WithKeyRepeats(xs[1..], key, x);
      assert multiset(xs) == multiset{xs[0]} + multiset(xs[1..]) by {
        assert xs == [xs[0]] + xs[1..];
      }
    }
  }

  lemma {:induction false} WithKeyConcat<A>(xs: seq<A>, ys: seq<A>, key: A -> Key, k: Key)
    ensures WithKey(xs + ys, key, k) == WithKey(xs, key, k) + WithKey(ys, key, k)
  {
    if xs == [] {
      assert xs + ys == ys;
    } else {
      WithKeyConcat(xs[1..], ys, key, k);
      hide WithKey;
      WithKeyCons(xs[0], xs[1..], key, k);
      WithKeyCons(xs[0], xs[1..] + ys, key, k);
      assert [xs[0]] + xs[1..] == xs && [xs[0]] + (xs[1..] + ys) == xs + ys;
    }
  }

  lemma WithKeyOfPermuted<A(!new)>(xs: seq<A>, ys: seq<A>, key: A -> Key, k: Key)
    requires multiset(xs) == multiset(ys) && KeysTell(xs, key)
    ensures WithKey(xs, key, k) == WithKey(ys, key, k)
  {
    if i :| 0 <= i < |xs| && key(xs[i]) == k {
      var x := xs[i];
      forall j | 0 <= j < |ys| && key(ys[j]) == k ensures ys[j] == x {
        assert ys[j] in multiset(xs);
      }
      WithKeyRepeats(xs, key, x);
      WithKeyRepeats(ys, key, x);
    } else {
      forall i | 0 <= i < |ys| ensures key(ys[i]) != k {
        assert ys[i] in multiset(xs);
      }
      WithKeyEmpty(xs, key, k);
      WithKeyEmpty(ys, key, k);
    }
  }

  lemma SortByOfPermuted<A(!new)>(xs: seq<A>, ys: seq<A>, key: A -> Key)
    requires multiset(xs) == multiset(ys) && KeysTell(xs, key)
    ensures SortBy(xs, key) == SortBy(ys, key)
  {
    SortByIsStableSort(xs, key);
    SortByIsStableSort(ys, key);
    forall k ensures WithKey(SortBy(xs, key), key, k) == WithKey(SortBy(ys, key), key, k) {
      WithKeyOfPermuted(xs, ys, key, k);
    }
    hide SortBy, KeysTell;
    StableSortUnique(SortBy(xs, key), SortBy(ys, key), key);
  }

  lemma WithKeyAfter<A>(xs: seq<A>, key: A -> Key, i: nat)
    requires i < |xs|
    ensures var n := |WithKey(xs[..i], key, key(xs[i]))|;
            n < |WithKey(xs, key, key(xs[i]))| && WithKey(xs, key, key(xs[i]))[n] == xs[i]
  {
    assert xs == xs[..i] + xs[i..];
    WithKeyConcat(xs[..i], xs[i..], key, key(xs[i]));
  }

  lemma SwapShows<A(!new)>(xs: seq<A>, key: A -> Key, i: nat, j: nat)
    requires i < j < |xs| && key(xs[i]) == key(xs[j]) && xs[i] != xs[j]
    ensures multiset(xs[i := xs[j]][j := xs[i]]) == multiset(xs)
    ensures SortBy(xs[i := xs[j]][j := xs[i]], key) != SortBy(xs, key)
  {
    var ys := xs[i := xs[j]][j := xs[i]];
    SortByIsStableSort(xs, key);
    SortByIsStableSort(ys, key);
    hide SortBy, WithKey;
    assert xs[..i] == ys[..i] && ys[i] == xs[j];
    WithKeyAfter(xs, key, i);
    WithKeyAfter(ys, key, i);
  }

  /** The sorted list is the same for every order of the input exactly when elements that
      share a key are equal. */
  lemma OrderIndependentIff<A(!new)>(xs: seq<A>, key: A -> Key)
    ensures (forall ys :: multiset(ys) == multiset(xs) ==> SortBy(ys, key) == SortBy(xs, key)) <==> KeysTell(xs, key)
  {
    if KeysTell(xs, key) {
      forall ys | multiset(ys) == multiset(xs) ensures SortBy(ys, key) == SortBy(xs, key) {
        SortByOfPermuted(xs, ys, key);
      }
    } else {
      var i, j :| 0 <= i < j < |xs| && key(xs[i]) == key(xs[j]) && xs[i] != xs[j];
      SwapShows(xs, key, i, j);
    }
  }

  lemma Utf16Injective(s: string, t: string)
    requires Utf16(s) == Utf16(t)
    ensures s == t
  {
    if s != "" && t != "" {
      var c, d := s[0] as int, t[0] as int;
      assert Utf16(s)[0] == Utf16(t)[0];
      assert c < 0xD800 || 0xE000 <= c;
      assert d < 0xD800 || 0xE000 <= d;
      if c < 0x1_0000 {
        assert Utf16(s)[1..] == Utf16(s[1..]) && Utf16(t)[1..] == Utf16(t[1..]);
      } else {
        assert Utf16(s)[1] == Utf16(t)[1];
        assert Utf16(s)[2..] == Utf16(s[1..]) && Utf16(t)[2..] == Utf16(t[1..]);
      }
      assert s[0] == t[0];
      Utf16Injective(s[1..], t[1..]);
      assert s == [s[0]] + s[1..] && t == [t[0]] + t[1..];
    }
  }
}
