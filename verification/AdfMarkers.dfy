/** safeSourceText (Adf.ts) does what it is for: no reserved comment marker survives it, not
    even one that the replacements themselves would put together. */
module AdfMarkers {
  import opened AdfReferences
  import opened Adf

  /** A reserved marker contains neither character after its first one. */
  predicate Stop(c: char) { c == '<' || c == '&' }

  /** Equal up to the first character that no marker contains. */
  predicate Similar(x: string, y: string)
    decreases |x|
  {
    if x == "" || y == "" then x == "" && y == ""
    else if Stop(x[0]) || Stop(y[0]) then Stop(x[0]) && Stop(y[0])
    else x[0] == y[0] && Similar(x[1..], y[1..])
  }

  lemma {:induction false} SafeTextIsSimilar(s: string)
    ensures Similar(SafeSourceText(s), s)
  {
    if s != "" {
      SafeTextIsSimilar(s[1..]);
      var head := if IsMarkerAt(s) then "&lt;" else [s[0]];
      assert SafeSourceText(s) == head + SafeSourceText(s[1..]);
      assert SafeSourceText(s)[0] == head[0];
      if !Stop(s[0]) {
        assert SafeSourceText(s)[1..] == SafeSourceText(s[1..]);
      }
    }
  }

  lemma {:induction false} SimilarSpaces(x: string, y: string)
    requires Similar(x, y)
    ensures Spaces(x) == Spaces(y) && Similar(x[Spaces(x)..], y[Spaces(y)..])
    decreases |x|
  {
    if x != "" && IsSpace(x[0]) {
      SimilarSpaces(x[1..], y[1..]);
    }
  }

  lemma {:induction false} SimilarMarkerChars(x: string, y: string)
    requires Similar(x, y)
    ensures MarkerChars(x) == MarkerChars(y) && x[..MarkerChars(x)] == y[..MarkerChars(y)]
    ensures Similar(x[MarkerChars(x)..], y[MarkerChars(y)..])
    decreases |x|
  {
    if x != "" && IsMarkerChar(x[0]) {
      SimilarMarkerChars(x[1..], y[1..]);
      var n := MarkerChars(x);
      assert x[..n] == [x[0]] + x[1..][..n - 1] && y[..n] == [y[0]] + y[1..][..n - 1];
    }
  }

  predicate NoStop(word: string) { forall i | 0 <= i < |word| :: !Stop(word[i]) }

  lemma {:induction false} SimilarWord(word: string, x: string, y: string)
    requires Similar(x, y) && NoStop(word)
    ensures word <= x <==> word <= y
    ensures word <= x ==> Similar(x[|word|..], y[|word|..])
    decreases |word|
  {
    if word != "" {
      assert word == [word[0]] + word[1..];
      if x != "" && y != "" && x[0] == word[0] && y[0] == word[0] {
        SimilarWord(word[1..], x[1..], y[1..]);
        assert x == [x[0]] + x[1..] && y == [y[0]] + y[1..];
        assert word <= x <==> word[1..] <= x[1..];
        assert word <= y <==> word[1..] <= y[1..];
      }
    }
  }

  lemma SimilarEnds(x: string, y: string)
    requires Similar(x, y)
    ensures EndsMarker(x) <==> EndsMarker(y)
  {
    SimilarSpaces(x, y);
    SimilarWord("-->", x[Spaces(x)..], y[Spaces(y)..]);
  }

  /** A closed marker behind one of the two fixed words. */
  lemma SimilarFixed(word: string, x: string, y: string)
    requires Similar(x, y) && NoStop(word)
    ensures word <= x && EndsMarker(x[|word|..]) <==> word <= y && EndsMarker(y[|word|..])
  {
    SimilarWord(word, x, y);
    if word <= x {
      SimilarEnds(x[|word|..], y[|word|..]);
    }
  }

  /** A closed marker behind an id. */
  predicate EndsId(s: string) {
    var n := MarkerChars(s);
    || (n >= 1 && EndsMarker(s[n..]))
    || (n >= 3 && s[n - 2..n] == "--" && ">" <= s[n..])
  }

  lemma SimilarId(x: string, y: string)
    requires Similar(x, y)
    ensures EndsId(x) <==> EndsId(y)
  {
    var n := MarkerChars(x);
    SimilarMarkerChars(x, y);
    SimilarEnds(x[n..], y[n..]);
    SimilarWord(">", x[n..], y[n..]);
    if n >= 2 {
      assert x[n - 2..n] == x[..n][n - 2..] && y[n - 2..n] == y[..n][n - 2..];
    }
  }

  lemma ReservedParts(s: string)
    ensures IsReserved(s) <==>
              || ("comments:start" <= s && EndsMarker(s[14..]))
              || ("comments:end" <= s && EndsMarker(s[12..]))
              || ("comment:" <= s && EndsId(s[8..]))
  {
    if "comment:" <= s {
      var n := MarkerChars(s[8..]);
      assert s[8..][n..] == s[8 + n..];
      if n >= 3 {
        assert s[8..][n - 2..n] == s[8 + n - 2..8 + n];
      }
    }
  }

  lemma SimilarReserved(x: string, y: string)
    requires Similar(x, y)
    ensures IsReserved(x) <==> IsReserved(y)
  {
    ReservedParts(x);
    ReservedParts(y);
    SimilarFixed("comments:start", x, y);
    SimilarFixed("comments:end", x, y);
    SimilarWord("comment:", x, y);
    hide IsReserved, EndsMarker, EndsId;
    if "comment:" <= x {
      SimilarId(x[8..], y[8..]);
    }
  }

  lemma SimilarMarker(x: string, y: string)
    requires Similar(x, y)
    ensures IsMarkerAt("<" + x) <==> IsMarkerAt("<" + y)
  {
    SimilarWord("!--", x, y);
    MarkerParts(x);
    MarkerParts(y);
    hide IsMarkerAt, IsReserved;
    if "!--" <= x {
      SimilarSpaces(x[3..], y[3..]);
      SimilarReserved(x[3..][Spaces(x[3..])..], y[3..][Spaces(y[3..])..]);
    }
  }

  lemma MarkerParts(x: string)
    ensures IsMarkerAt("<" + x) <==> "!--" <= x && IsReserved(x[3..][Spaces(x[3..])..])
  {
    var s := "<" + x;
    assert s[1..] == x && "<!--" == "<" + "!--";
    if "<!--" <= s {
      assert s == "<!--" + s[4..];
      assert x == "!--" + s[4..];
    }
    if "!--" <= x {
      assert x == "!--" + x[3..];
      assert s == "<!--" + x[3..];
      assert s[4..] == x[3..];
      assert s[4 + Spaces(s[4..])..] == x[3..][Spaces(x[3..])..];
    }
  }

  lemma MarkerBegins(s: string)
    ensures IsMarkerAt(s) ==> s != "" && s[0] == '<'
  {
  }

  lemma BracketSurvives(s: string)
    requires s != "" && s[0] == '<' && !IsMarkerAt(s)
    ensures !IsMarkerAt("<" + SafeSourceText(s[1..]))
  {
    SafeTextIsSimilar(s[1..]);
    hide IsMarkerAt, SafeSourceText, Similar;
    SimilarMarker(SafeSourceText(s[1..]), s[1..]);
    assert s == "<" + s[1..];
  }

  ghost predicate Unmarked(t: string) { forall i | 0 <= i <= |t| :: !IsMarkerAt(t[i..]) }

  lemma UnmarkedMore(head: string, rest: string)
    requires Unmarked(rest)
    requires forall i | 0 <= i < |head| :: !IsMarkerAt(head[i..] + rest)
    ensures Unmarked(head + rest)
  {
    hide IsMarkerAt;
    var t := head + rest;
    forall i | 0 <= i <= |t| ensures !IsMarkerAt(t[i..]) {
      if i >= |head| {
        assert t[i..] == rest[i - |head|..];
      } else {
        assert t[i..] == head[i..] + rest;
      }
    }
  }

  lemma EntityUnmarked(rest: string)
    ensures forall i | 0 <= i < 4 :: !IsMarkerAt("&lt;"[i..] + rest)
  {
    hide IsMarkerAt;
    forall i | 0 <= i < 4 ensures !IsMarkerAt("&lt;"[i..] + rest) {
      MarkerBegins("&lt;"[i..] + rest);
      assert ("&lt;"[i..] + rest)[0] == "&lt;"[i];
    }
  }

  lemma CharUnmarked(s: string)
    requires s != "" && !IsMarkerAt(s)
    ensures !IsMarkerAt([s[0]] + SafeSourceText(s[1..]))
  {
    hide IsMarkerAt, SafeSourceText;
    MarkerBegins([s[0]] + SafeSourceText(s[1..]));
    if s[0] == '<' {
      BracketSurvives(s);
      assert "<" == [s[0]];
    }
  }

  /** A neutralised text contains no reserved marker anywhere. */
  lemma {:induction false} NoMarkerSurvives(s: string)
    ensures forall i | 0 <= i <= |SafeSourceText(s)| :: !IsMarkerAt(SafeSourceText(s)[i..])
  {
    if s == "" {
      MarkerBegins("");
      assert ""[0..] == "";
    } else {
      var rest := SafeSourceText(s[1..]);
      NoMarkerSurvives(s[1..]);
      assert SafeSourceText(s) == (if IsMarkerAt(s) then "&lt;" else [s[0]]) + rest;
      hide IsMarkerAt, SafeSourceText;
      if IsMarkerAt(s) {
        EntityUnmarked(rest);
        UnmarkedMore("&lt;", rest);
      } else {
        CharUnmarked(s);
        assert [s[0]][0..] == [s[0]];
        UnmarkedMore([s[0]], rest);
      }
    }
  }

  /** The text a reader sees: the entity for an opening bracket is one. */
  function ReadBrackets(s: string): string
    decreases |s|
  {
    if s == "" then ""
    else if "&lt;" <= s then "<" + ReadBrackets(s[4..])
    else [s[0]] + ReadBrackets(s[1..])
  }

  lemma EntityStays(s: string)
    requires "&lt;" <= s
    ensures SafeSourceText(s) == "&lt;" + SafeSourceText(s[4..])
  {
    assert s[0] == '&' && s[1] == 'l' && s[2] == 't' && s[3] == ';';
    assert s[1..][1..] == s[2..] && s[2..][1..] == s[3..] && s[3..][1..] == s[4..];
    assert SafeSourceText(s[3..]) == ";" + SafeSourceText(s[4..]);
    assert SafeSourceText(s[2..]) == "t" + SafeSourceText(s[3..]);
    assert SafeSourceText(s[1..]) == "l" + SafeSourceText(s[2..]);
    assert SafeSourceText(s) == "&" + SafeSourceText(s[1..]);
  }

  lemma ReadEntity(s: string)
    ensures ReadBrackets("&lt;" + s) == "<" + ReadBrackets(s)
  {
    assert ("&lt;" + s)[4..] == s;
  }

  lemma ReadOther(s: string)
    requires s != "" && !("&lt;" <= s)
    ensures ReadBrackets(s) == [s[0]] + ReadBrackets(s[1..])
  {
  }

  /** Neutralising changes nothing for a reader. */
  lemma {:induction false} SafeTextReadsTheSame(s: string)
    ensures ReadBrackets(SafeSourceText(s)) == ReadBrackets(s)
    decreases |s|
  {
    if s != "" {
      SafeTextReadsTheSame(s[1..]);
      if IsMarkerAt(s) {
        MarkerReads(s);
      } else if "&lt;" <= s {
        SafeTextReadsTheSame(s[4..]);
        hide SafeSourceText, ReadBrackets;
        EntityStays(s);
        ReadEntity(SafeSourceText(s[4..]));
        ReadEntity(s[4..]);
        assert s == "&lt;" + s[4..];
      } else {
        OtherStays(s);
      }
    }
  }

  lemma MarkerReads(s: string)
    requires s != "" && IsMarkerAt(s) && ReadBrackets(SafeSourceText(s[1..])) == ReadBrackets(s[1..])
    ensures ReadBrackets(SafeSourceText(s)) == ReadBrackets(s)
  {
    var rest := SafeSourceText(s[1..]);
    assert s[0] == '<' && SafeSourceText(s) == "&lt;" + rest;
    hide IsMarkerAt, SafeSourceText;
    ReadEntity(rest);
    ReadOther(s);
  }

  lemma OtherStays(s: string)
    requires s != "" && !IsMarkerAt(s) && !("&lt;" <= s)
    requires ReadBrackets(SafeSourceText(s[1..])) == ReadBrackets(s[1..])
    ensures ReadBrackets(SafeSourceText(s)) == ReadBrackets(s)
  {
    var rest := SafeSourceText(s[1..]);
    SafeTextIsSimilar(s[1..]);
    SimilarWord("lt;", rest, s[1..]);
    var t := [s[0]] + rest;
    assert SafeSourceText(s) == t && t[1..] == rest;
    hide IsMarkerAt, SafeSourceText, Similar, ReadBrackets;
    EntityParts(s);
    EntityParts(t);
    ReadOther(s);
    ReadOther(t);
  }

  lemma EntityParts(s: string)
    requires s != ""
    ensures "&lt;" <= s <==> s[0] == '&' && "lt;" <= s[1..]
  {
    assert "&lt;" == "&" + "lt;" && s == [s[0]] + s[1..];
  }

  /** A text without a reserved marker is not changed at all, and any other one is. */
  lemma {:induction false} OnlyMarkersChange(s: string)
    ensures SafeSourceText(s) == s <==> forall i | 0 <= i < |s| :: !IsMarkerAt(s[i..])
    ensures |SafeSourceText(s)| >= |s|
  {
    if s != "" {
      var rest := s[1..];
      OnlyMarkersChange(rest);
      hide IsMarkerAt;
      assert s[0..] == s && s == [s[0]] + rest;
      var head := if IsMarkerAt(s) then "&lt;" else [s[0]];
      assert SafeSourceText(s) == head + SafeSourceText(rest);
      SameTail(s, rest);
      SameHead(s[0], SafeSourceText(rest), rest);
    }
  }

  lemma SameTail(s: string, rest: string)
    requires s != "" && rest == s[1..]
    ensures (forall i | 0 <= i < |s| :: !IsMarkerAt(s[i..]))
            <==> !IsMarkerAt(s) && forall i | 0 <= i < |rest| :: !IsMarkerAt(rest[i..])
  {
    hide IsMarkerAt;
    assert s[0..] == s;
    forall i | 0 <= i < |rest| ensures rest[i..] == s[i + 1..] {
    }
    if forall i | 0 <= i < |rest| :: !IsMarkerAt(rest[i..]) {
      forall i | 1 <= i < |s| ensures !IsMarkerAt(s[i..]) {
        assert s[i..] == rest[i - 1..];
      }
    }
  }

  lemma SameHead(c: char, a: string, b: string)
    ensures [c] + a == [c] + b <==> a == b
  {
    assert ([c] + a)[1..] == a && ([c] + b)[1..] == b;
  }
}
