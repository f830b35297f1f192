/** projectStateCacheKey (packages/integration-github, projectStateCache.ts). */
module ProjectStateCacheKey {
  import opened Wrappers
  import opened Sorting
  import opened CanonicalJson

  datatype Request = Request(
    installationId: string, owner: string, name: string, branches: seq<string>, branchQuery: Option<string>)

  /** toFoldedCase on the letters GitHub allows in owner and repository names. */
  function Folded(s: string): (t: string)
    ensures |t| == |s|
  {
    if s == "" then ""
    else [Lower(s[0])] + Folded(s[1..])
  }

  function RepoKey(r: Request): string { Folded(r.owner) + "\0" + Folded(r.name) }

  function StrOf(s: string): Json { Str(Utf16(s)) }

  function StrsOf(ss: seq<string>): (js: seq<Json>)
    ensures |js| == |ss| && forall i | 0 <= i < |ss| :: js[i] == StrOf(ss[i])
  {
    seq(|ss|, i requires 0 <= i < |ss| => StrOf(ss[i]))
  }

  function KeyJson(r: Request): Json {
    Arr([StrOf(r.installationId), StrOf(RepoKey(r)),
         if r.branchQuery.Some? then StrOf(r.branchQuery.value) else Null,
         Arr(StrsOf(SortBy(FirstOccurrences(r.branches), Utf16)))])
  }

  lemma {:induction false} Utf16IsText(s: string)
    ensures ValidText(Utf16(s))
  {
    if s != "" {
      Utf16IsText(s[1..]);
    }
  }

  lemma StrOfIsJson(s: string)
    ensures Valid(StrOf(s))
  {
    Utf16IsText(s);
  }

  lemma ArrIsJson(items: seq<Json>)
    requires forall i | 0 <= i < |items| :: Valid(items[i])
    ensures Valid(Arr(items))
  {
  }

  lemma KeyIsJson(r: Request)
    ensures Valid(KeyJson(r))
  {
    hide Valid, StrOf, SortBy, FirstOccurrences;
    var branches := SortBy(FirstOccurrences(r.branches), Utf16);
    forall i | 0 <= i < |branches| ensures Valid(StrsOf(branches)[i]) {
      StrOfIsJson(branches[i]);
    }
    ArrIsJson(StrsOf(branches));
    StrOfIsJson(r.installationId);
    StrOfIsJson(RepoKey(r));
    var query := if r.branchQuery.Some? then StrOf(r.branchQuery.value) else Null;
    assert Valid(query) by {
      if r.branchQuery.Some? {
        StrOfIsJson(r.branchQuery.value);
      } else {
        NullIsJson();
      }
    }
    ArrIsJson([StrOf(r.installationId), StrOf(RepoKey(r)), query, Arr(StrsOf(branches))]);
  }

  lemma NullIsJson()
    ensures Valid(Null)
  {
  }

  function CacheKey(r: Request): Text {
    KeyIsJson(r);
    Print(KeyJson(r))
  }

  lemma SortedBranchesAgreeIff(xs: seq<string>, ys: seq<string>)
    ensures SortBy(FirstOccurrences(xs), Utf16) == SortBy(FirstOccurrences(ys), Utf16) <==> forall b :: b in xs <==> b in ys
  {
    var u, v := FirstOccurrences(xs), FirstOccurrences(ys);
    SortByIsStableSort(u, Utf16);
    SortByIsStableSort(v, Utf16);
    if SortBy(u, Utf16) == SortBy(v, Utf16) {
      forall b ensures b in xs <==> b in ys {
        assert b in multiset(u) <==> b in multiset(v);
      }
    }
    if forall b :: b in xs <==> b in ys {
      forall b ensures multiset(u)[b] == multiset(v)[b] {
        DistinctCounts(u, b);
        DistinctCounts(v, b);
      }
      forall i, j | 0 <= i < j < |u| ensures Utf16(u[i]) != Utf16(u[j]) {
        if Utf16(u[i]) == Utf16(u[j]) {
          Utf16Injective(u[i], u[j]);
        }
      }
      SortByOfPermuted(u, v, Utf16);
    }
  }

  lemma StrOfInjective(s: string, t: string)
    requires StrOf(s) == StrOf(t)
    ensures s == t
  {
    Utf16Injective(s, t);
  }

  lemma {:induction false} StrsOfInjective(ss: seq<string>, ts: seq<string>)
    requires StrsOf(ss) == StrsOf(ts)
    ensures ss == ts
  {
    forall i | 0 <= i < |ss| ensures ss[i] == ts[i] {
      assert StrsOf(ss)[i] == StrsOf(ts)[i];
      StrOfInjective(ss[i], ts[i]);
    }
  }

  /** Two requests share a cache key exactly when installation, repository key, query and set
      of branches agree. */
  lemma KeysAgreeIff(a: Request, b: Request)
    ensures CacheKey(a) == CacheKey(b) <==>
              && a.installationId == b.installationId && RepoKey(a) == RepoKey(b) && a.branchQuery == b.branchQuery
              && forall branch :: branch in a.branches <==> branch in b.branches
  {
    SortedBranchesAgreeIff(a.branches, b.branches);
    if CacheKey(a) == CacheKey(b) {
      KeyIsJson(a);
      KeyIsJson(b);
      StringifyInjective(KeyJson(a), KeyJson(b));
      assert KeyJson(a).items[0] == KeyJson(b).items[0] && KeyJson(a).items[1] == KeyJson(b).items[1];
      assert KeyJson(a).items[2] == KeyJson(b).items[2] && KeyJson(a).items[3] == KeyJson(b).items[3];
      StrOfInjective(a.installationId, b.installationId);
      StrOfInjective(RepoKey(a), RepoKey(b));
      if a.branchQuery.Some? {
        StrOfInjective(a.branchQuery.value, b.branchQuery.value);
      }
      StrsOfInjective(SortBy(FirstOccurrences(a.branches), Utf16), SortBy(FirstOccurrences(b.branches), Utf16));
    }
  }

  lemma {:induction false} SplitAtFirst(o: string, n: string, p: string, m: string)
    requires '\0' !in o && '\0' !in p && o + "\0" + n == p + "\0" + m
    ensures o == p && n == m
  {
    var x, y := o + "\0" + n, p + "\0" + m;
    assert x[|o|] == '\0' && y[|p|] == '\0';
    assert forall i | 0 <= i < |o| :: x[i] == o[i];
    assert forall i | 0 <= i < |p| :: y[i] == p[i];
    assert |o| == |p|;
    assert x[..|o|] == o && y[..|p|] == p && x[|o| + 1..] == n && y[|p| + 1..] == m;
  }

  lemma {:induction false} FoldedKeepsNul(s: string)
    ensures '\0' in Folded(s) <==> '\0' in s
  {
    if s != "" {
      FoldedKeepsNul(s[1..]);
      assert s == [s[0]] + s[1..];
    }
  }

  /** For every case folding that neither makes nor removes a NUL, as toLowerCase on all of
      Unicode is one: the keys of owners without a NUL agree exactly when the folded owners
      and the folded names do. */
  lemma {:induction false} FoldedKeysAgreeIff(fold: string -> string, o: string, n: string, p: string, m: string)
    requires forall s :: '\0' in fold(s) <==> '\0' in s
    requires '\0' !in o && '\0' !in p
    ensures fold(o) + "\0" + fold(n) == fold(p) + "\0" + fold(m) <==> fold(o) == fold(p) && fold(n) == fold(m)
  {
    if fold(o) + "\0" + fold(n) == fold(p) + "\0" + fold(m) {
      SplitAtFirst(fold(o), fold(n), fold(p), fold(m));
    }
  }

  lemma RepoKeysAgreeIff(a: Request, b: Request)
    requires '\0' !in a.owner && '\0' !in b.owner
    ensures RepoKey(a) == RepoKey(b) <==> Folded(a.owner) == Folded(b.owner) && Folded(a.name) == Folded(b.name)
  {
    forall s ensures '\0' in Folded(s) <==> '\0' in s {
      FoldedKeepsNul(s);
    }
    FoldedKeysAgreeIff(Folded, a.owner, a.name, b.owner, b.name);
  }

  /** With a NUL in an owner, two repositories share a key. */
  lemma NulOwnersCollide()
    ensures var a, b := Request("1", "a\0b", "c", [], None), Request("1", "a", "b\0c", [], None);
            RepoKey(a) == RepoKey(b) && Folded(a.owner) != Folded(b.owner)
  {
    assert Folded("a\0b") == "a\0b" && Folded("c") == "c" && Folded("a") == "a" && Folded("b\0c") == "b\0c";
  }
}
