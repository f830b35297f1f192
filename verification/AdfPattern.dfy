/** What a reserved comment marker is (safeSourceText, Adf.ts): the scanner of the model finds one
    exactly where the pattern of the source matches. */
module AdfPattern {
  import opened AdfReferences
  import opened Adf
  import opened AdfMarkers

  predicate White(s: string) { forall i | 0 <= i < |s| :: IsSpace(s[i]) }

  predicate IsId(s: string) {
    s != "" && forall i | 0 <= i < |s| ::
      ('a' <= s[i] && s[i] <= 'z') || ('A' <= s[i] && s[i] <= 'Z') || ('0' <= s[i] && s[i] <= '9') || s[i] == '-' || s[i] == '_'
  }

  predicate IsBody(body: string) {
    body == "comments:start" || body == "comments:end" || ("comment:" <= body && IsId(body[8..]))
  }

  /** A reserved marker as the pattern of the source spells it. */
  ghost predicate Spells(s: string, before: string, body: string, after: string) {
    White(before) && IsBody(body) && White(after) && "<!--" + before + body + after + "-->" <= s
  }

  lemma {:induction false} SpacesAreWhite(s: string)
    ensures White(s[..Spaces(s)]) && (Spaces(s) < |s| ==> !IsSpace(s[Spaces(s)]))
  {
    if s != "" && IsSpace(s[0]) {
      SpacesAreWhite(s[1..]);
      assert s[..Spaces(s)] == [s[0]] + s[1..][..Spaces(s[1..])];
    }
  }

  lemma {:induction false} SpacesBefore(white: string, rest: string)
    requires White(white) && rest != "" && !IsSpace(rest[0])
    ensures Spaces(white + rest) == |white|
  {
    if white == "" {
      assert white + rest == rest;
    } else {
      assert (white + rest)[1..] == white[1..] + rest;
      SpacesBefore(white[1..], rest);
    }
  }

  lemma {:induction false} MarkerCharsAreId(s: string)
    ensures MarkerChars(s) > 0 ==> IsId(s[..MarkerChars(s)])
    ensures MarkerChars(s) < |s| ==> !IsMarkerChar(s[MarkerChars(s)])
  {
    if s != "" && IsMarkerChar(s[0]) {
      MarkerCharsAreId(s[1..]);
      var n := MarkerChars(s[1..]);
      assert s[..MarkerChars(s)] == [s[0]] + s[1..][..n];
    }
  }

  lemma {:induction false} MarkerCharsBefore(id: string, rest: string)
    requires id == "" || IsId(id)
    requires rest != "" && !IsMarkerChar(rest[0])
    ensures MarkerChars(id + rest) == |id|
  {
    if id == "" {
      assert id + rest == rest;
    } else {
      assert (id + rest)[1..] == id[1..] + rest;
      assert id[1..] != "" ==> IsId(id[1..]);
      MarkerCharsBefore(id[1..], rest);
    }
  }

  lemma NoSpaceIsMarkerChar(c: char)
    requires IsSpace(c)
    ensures !IsMarkerChar(c) && c != '-' && c != '>' && c != 'c'
  {
  }

  lemma SpelledEnd(s: string, after: string)
    requires White(after) && after + "-->" <= s
    ensures EndsMarker(s)
  {
    NoSpacesInClosing();
    var rest := "-->" + s[|after| + 3..];
    assert s == after + rest && rest[0] == '-';
    hide White, IsSpace;
    SpacesBefore(after, rest);
    assert s[|after|..] == rest;
  }

  /** A closed marker ends with white space and the closing. */
  lemma EndIsSpelled(s: string)
    ensures EndsMarker(s) <==> exists after :: White(after) && after + "-->" <= s
  {
    if EndsMarker(s) {
      SpacesAreWhite(s);
      hide White, IsSpace, Spaces;
      var after := s[..Spaces(s)];
      assert s == after + s[|after|..];
      assert s[|after|..] == "-->" + s[|after|..][3..];
      assert s == after + "-->" + s[|after|..][3..];
      assert after + "-->" <= s;
    } else {
      hide EndsMarker;
      forall after ensures !(White(after) && after + "-->" <= s) {
        if White(after) && after + "-->" <= s {
          SpelledEnd(s, after);
        }
      }
    }
  }

  lemma NoSpacesInClosing()
    ensures !IsSpace('-') && !IsSpace('c') && !IsSpace('>') && !IsMarkerChar('>')
  {
  }

  /** The text begins with a reserved body that is then closed. */
  ghost predicate Closed(s: string, body: string, after: string) {
    IsBody(body) && White(after) && body + after + "-->" <= s
  }

  lemma PrefixCancels(a: string, b: string, c: string)
    ensures a + b <= a + c <==> b <= c
  {
    if a + b <= a + c {
      assert (a + c)[..|a + b|][|a|..] == c[..|b|];
    }
  }

  lemma ClosedBegins(s: string, body: string, after: string)
    ensures Closed(s, body, after) ==> body <= s
  {
    assert body <= body + after + "-->";
  }

  lemma FixedIsSpelled(word: string, s: string)
    requires IsBody(word)
    ensures word <= s && EndsMarker(s[|word|..]) <==> exists after :: Closed(s, word, after)
  {
    hide IsBody, EndsMarker;
    forall after ensures Closed(s, word, after) ==> word <= s {
      ClosedBegins(s, word, after);
    }
    if word <= s {
      var rest := s[|word|..];
      EndIsSpelled(rest);
      assert s == word + rest;
      forall after ensures Closed(s, word, after) <==> White(after) && after + "-->" <= rest {
        assert word + after + "-->" == word + (after + "-->");
        PrefixCancels(word, after + "-->", rest);
      }
    }
  }

  /** An id followed by its closing, whose hyphens may look like part of the id. */
  lemma IdIsClosed(s: string, id: string, after: string)
    requires IsId(id) && White(after) && id + after + "-->" <= s
    ensures EndsId(s)
  {
    NoSpacesInClosing();
    var rest := s[|id| + |after| + 3..];
    assert s == id + after + "-->" + rest;
    if after == "" {
      var run, tail := id + "--", ">" + rest;
      assert s == run + tail;
      assert IsId(run) by {
        forall i | 0 <= i < |run| ensures i < |id| ==> run[i] == id[i] {
        }
      }
      MarkerCharsBefore(run, tail);
      assert s[|run| - 2..|run|] == "--" && s[|run|..] == tail;
    } else {
      var tail := after + "-->" + rest;
      assert s == id + tail && tail[0] == after[0];
      NoSpaceIsMarkerChar(after[0]);
      MarkerCharsBefore(id, tail);
      assert s[|id|..] == tail;
      assert after + "-->" <= tail;
      EndIsSpelled(tail);
    }
  }

  lemma ClosedIdIs(s: string)
    requires EndsId(s)
    ensures exists id, after :: IsId(id) && White(after) && id + after + "-->" <= s
  {
    var n := MarkerChars(s);
    MarkerCharsAreId(s);
    if n >= 1 && EndsMarker(s[n..]) {
      EndIsSpelled(s[n..]);
      var after :| White(after) && after + "-->" <= s[n..];
      var id := s[..n];
      assert s == id + s[n..];
      assert id + after + "-->" == id + (after + "-->");
      assert id + after + "-->" <= s;
    } else {
      var id := s[..n - 2];
      assert IsId(id) by {
        forall i | 0 <= i < |id| ensures id[i] == s[..n][i] {
        }
      }
      assert s == id + s[n - 2..n] + s[n..];
      assert s[n..] == ">" + s[n..][1..];
      assert s == id + "--" + ">" + s[n..][1..];
      assert id + "" + "-->" == id + "--" + ">";
      assert id + "" + "-->" <= s;
    }
  }

  lemma IdBody(id: string)
    requires IsId(id)
    ensures IsBody("comment:" + id)
  {
    assert ("comment:" + id)[8..] == id;
  }

  lemma IdCloses(s: string, id: string, after: string)
    requires "comment:" <= s && IsId(id) && White(after) && id + after + "-->" <= s[8..]
    ensures Closed(s, "comment:" + id, after)
  {
    hide IsId, IsBody, White;
    IdBody(id);
    var body := "comment:" + id;
    assert s == "comment:" + s[8..];
    assert body + after + "-->" == "comment:" + (id + after + "-->");
    PrefixCancels("comment:", id + after + "-->", s[8..]);
  }

  lemma IdBodyCloses(s: string)
    requires "comment:" <= s && EndsId(s[8..])
    ensures exists body, after :: Closed(s, body, after)
  {
    hide *;
    ClosedIdIs(s[8..]);
    var id, after :| IsId(id) && White(after) && id + after + "-->" <= s[8..];
    IdCloses(s, id, after);
  }

  lemma ClosedIdBody(s: string, body: string, after: string)
    requires Closed(s, body, after) && body != "comments:start" && body != "comments:end"
    ensures "comment:" <= s && EndsId(s[8..])
  {
    hide EndsId, IsId;
    var id := body[8..];
    ClosedBegins(s, body, after);
    assert body == "comment:" + id;
    assert body + after + "-->" == "comment:" + (id + after + "-->");
    assert "comment:" <= s && s == "comment:" + s[8..];
    PrefixCancels("comment:", id + after + "-->", s[8..]);
    IdIsClosed(s[8..], id, after);
  }

  /** The part behind the white space: a body and its closing. */
  lemma ReservedIsClosed(s: string)
    ensures IsReserved(s) <==> exists body, after :: Closed(s, body, after)
  {
    hide IsReserved, EndsMarker, EndsId, Closed;
    ReservedParts(s);
    FixedIsSpelled("comments:start", s);
    FixedIsSpelled("comments:end", s);
    if "comment:" <= s && EndsId(s[8..]) {
      IdBodyCloses(s);
    }
    if body, after :| Closed(s, body, after) {
      if body != "comments:start" && body != "comments:end" {
        ClosedIdBody(s, body, after);
      }
    }
  }

  lemma SpelledBegins(s: string, before: string, body: string, after: string)
    ensures Spells(s, before, body, after) ==> "<!--" <= s
  {
    assert "<!--" <= "<!--" + before + body + after + "-->";
  }

  /** The scanner finds a marker exactly where the pattern of the source matches. */
  lemma MarkerIsSpelledIff(s: string)
    ensures IsMarkerAt(s) <==> exists before, body, after :: Spells(s, before, body, after)
  {
    hide IsReserved, Spells, Closed;
    forall before, body, after ensures Spells(s, before, body, after) ==> "<!--" <= s {
      SpelledBegins(s, before, body, after);
    }
    if "<!--" <= s {
      var t := s[4..];
      assert s == "<!--" + t;
      SpacesAreWhite(t);
      var before := t[..Spaces(t)];
      assert t == before + t[|before|..] && s[4 + Spaces(s[4..])..] == t[|before|..];
      ReservedIsClosed(t[|before|..]);
      if IsMarkerAt(s) {
        var body, after :| Closed(t[|before|..], body, after);
        SpelledParts(s, before, body, after);
      }
      if b, body, after :| Spells(s, b, body, after) {
        SpelledBefore(t, b, body, after);
        SpelledParts(s, before, body, after);
      }
    }
  }

  lemma SpelledParts(s: string, before: string, body: string, after: string)
    requires "<!--" + before <= s && White(before)
    ensures Spells(s, before, body, after) <==> Closed(s[4 + |before|..], body, after)
  {
    hide IsBody, White;
    var rest := s[4 + |before|..];
    assert s == "<!--" + before + rest;
    assert "<!--" + before + body + after + "-->" == "<!--" + before + (body + after + "-->");
    PrefixCancels("<!--" + before, body + after + "-->", rest);
  }

  lemma SpelledBefore(t: string, before: string, body: string, after: string)
    requires Spells("<!--" + t, before, body, after)
    ensures before == t[..Spaces(t)]
  {
    var tail := body + after + "-->";
    assert "<!--" + before + body + after + "-->" == "<!--" + (before + tail);
    PrefixCancels("<!--", before + tail, t);
    var rest := t[|before|..];
    assert t == before + rest;
    PrefixCancels(before, tail, rest);
    assert rest[0] == tail[0] == body[0] == 'c';
    NoSpacesInClosing();
    SpacesBefore(before, rest);
  }
}
