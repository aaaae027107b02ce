/** What the string steps of a bundle do, said of the characters of the text alone: where a text is cut
    into paragraphs, which of them become records, and what a markdown section holds. */
module BundleText {
  import opened Bundle

  // ----- The string library -----

  ghost predicate StandsAt(part: string, s: string, i: int) {
    0 <= i <= |s| - |part| && s[i..i + |part|] == part
  }

  /** A part is contained exactly if it stands at some position. */
  lemma {:induction false} ContainedSomewhere(s: string, part: string)
    ensures Contains(s, part) <==> exists i :: StandsAt(part, s, i)
  {
    if StartsWith(s, part) {
      assert StandsAt(part, s, 0);
    } else if s != "" {
      ContainedSomewhere(s[1..], part);
      if i :| StandsAt(part, s[1..], i) {
        assert s[i + 1..i + 1 + |part|] == s[1..][i..i + |part|];
        assert StandsAt(part, s, i + 1);
      }
      if i :| StandsAt(part, s, i) {
        assert i > 0 ==> s[1..][i - 1..i - 1 + |part|] == s[i..i + |part|];
        assert StandsAt(part, s[1..], i - 1);
      }
    }
  }

  lemma {:induction false} JoinOfSum(xs: seq<string>, ys: seq<string>, sep: string)
    requires xs != [] && ys != []
    ensures JoinWith(xs + ys, sep) == JoinWith(xs, sep) + sep + JoinWith(ys, sep)
    ensures |xs| == 1 ==> JoinWith(xs, sep) == xs[0]
  {
    if |xs| > 1 {
      JoinOfSum(xs[1..], ys, sep);
      assert (xs + ys)[1..] == xs[1..] + ys;
    } else {
      assert (xs + ys)[1..] == ys;
    }
  }

  /** No newline sequence of Windows lies across the cut. */
  predicate CutsNoCrlf(a: string, b: string) {
    a == "" || b == "" || a[|a| - 1] != '\r' || b[0] != '\n'
  }

  lemma ReplaceFirst(t: string)
    ensures ReplaceAll("\r\n" + t, "\r\n", "\n") == "\n" + ReplaceAll(t, "\r\n", "\n")
  {
    assert ("\r\n" + t)[2..] == t;
  }

  lemma KeepFirst(c: char, t: string)
    requires c != '\r' || t == "" || t[0] != '\n'
    ensures ReplaceAll([c] + t, "\r\n", "\n") == [c] + ReplaceAll(t, "\r\n", "\n")
  {
    assert ([c] + t)[1..] == t;
  }

  lemma {:induction false} ReplaceOfSum(a: string, b: string)
    requires CutsNoCrlf(a, b)
    ensures ReplaceAll(a + b, "\r\n", "\n") == ReplaceAll(a, "\r\n", "\n") + ReplaceAll(b, "\r\n", "\n")
  {
    hide ReplaceAll;
    if a == "" {
      assert a + b == b;
      ReplaceNone();
    } else if |a| >= 2 && a[0] == '\r' && a[1] == '\n' {
      ReplaceOfSum(a[2..], b);
      ReplaceFirst(a[2..]);
      ReplaceFirst(a[2..] + b);
      assert a == "\r\n" + a[2..] && a + b == "\r\n" + (a[2..] + b);
    } else {
      ReplaceOfSum(a[1..], b);
      KeepFirst(a[0], a[1..]);
      KeepFirst(a[0], a[1..] + b);
      assert a == [a[0]] + a[1..] && a + b == [a[0]] + (a[1..] + b);
    }
  }

  lemma ReplaceNone()
    ensures ReplaceAll("", "\r\n", "\n") == ""
  {
  }

  /** Each "\r\n" becomes one newline and nothing else changes. */
  lemma CrlfBecomesNewline(a: string, b: string)
    ensures ReplaceAll(a + "\r\n" + b, "\r\n", "\n")
         == ReplaceAll(a, "\r\n", "\n") + "\n" + ReplaceAll(b, "\r\n", "\n")
  {
    assert a + "\r\n" + b == a + ("\r\n" + b);
    ReplaceOfSum(a, "\r\n" + b);
    assert ("\r\n" + b)[2..] == b;
  }

  lemma {:induction false} NothingToReplace(s: string)
    requires !Contains(s, "\r\n")
    ensures ReplaceAll(s, "\r\n", "\n") == s
  {
    if s != "" {
      NothingToReplace(s[1..]);
    }
  }

  lemma {:induction false} CapOfSum(a: string, b: string, seen: nat)
    requires (a == "" && seen == 0) || b == "" || b[0] != '\n' || (a != "" && a[|a| - 1] != '\n')
    ensures CapRuns(a + b, seen) == CapRuns(a, seen) + CapRuns(b, 0)
  {
    if a == "" {
      assert a + b == b;
    } else {
      CapOfSum(a[1..], b, if a[0] != '\n' then 0 else if seen < 2 then seen + 1 else seen);
      assert (a + b)[1..] == a[1..] + b;
    }
  }

  /** The cut of the runs of newlines: none longer than two remains, a text without one is kept, and a
      newline more or less in a run of three does not matter. */
  lemma RunsAreCut(s: string)
    ensures !Contains(CapRuns(s, 0), "\n\n\n")
    ensures !Contains(s, "\n\n\n") ==> CapRuns(s, 0) == s
  {
    CappedRunsAreShort(s, 0);
    if !Contains(s, "\n\n\n") {
      NothingToCap(s, 0);
    }
  }

  lemma {:induction false} LongRunsAreOne(a: string, b: string, seen: nat)
    requires seen <= 2
    ensures CapRuns(a + "\n\n\n" + b, seen) == CapRuns(a + "\n\n" + b, seen)
  {
    if a == "" {
      CapThree(b, seen);
      CapTwo(b, seen);
      assert a + "\n\n\n" + b == "\n\n\n" + b && a + "\n\n" + b == "\n\n" + b;
    } else {
      LongRunsAreOne(a[1..], b, if a[0] != '\n' then 0 else if seen < 2 then seen + 1 else seen);
      assert (a + "\n\n\n" + b)[1..] == a[1..] + "\n\n\n" + b;
      assert (a + "\n\n" + b)[1..] == a[1..] + "\n\n" + b;
    }
  }

  // ----- Where a text is cut -----

  /** A text without a blank line is one paragraph. */
  lemma OneParagraph(body: string)
    requires !Contains(body, "\r\n") && !Contains(body, "\n\n")
    ensures Paragraphs(body) == [body]
  {
    NothingToReplace(body);
    NoLongerRun(body);
    NothingToCap(body, 0);
    OnePiece(body);
  }

  lemma {:induction false} NoLongerRun(s: string)
    requires !Contains(s, "\n\n")
    ensures !Contains(s, "\n\n\n")
  {
    NewlinesStart(s);
    if s != "" {
      NoLongerRun(s[1..]);
    }
  }

  lemma {:induction false} OnePiece(s: string)
    requires !Contains(s, "\n\n")
    ensures Split(s, "\n\n") == [s]
  {
    if s != "" {
      OnePiece(s[1..]);
      assert [s[0]] + s[1..] == s;
    }
  }

  lemma CutFirst(t: string)
    ensures Split("\n\n" + t, "\n\n") == [""] + Split(t, "\n\n")
  {
    assert ("\n\n" + t)[2..] == t;
  }

  lemma ExtendFirst(c: char, t: string)
    requires c != '\n' || t == "" || t[0] != '\n'
    ensures Split([c] + t, "\n\n") == [[c] + Split(t, "\n\n")[0]] + Split(t, "\n\n")[1..]
  {
    assert ([c] + t)[1..] == t;
  }

  lemma {:induction false} SplitOfSum(a: string, b: string)
    requires a == "" || a[|a| - 1] != '\n'
    ensures Split(a + "\n\n" + b, "\n\n") == Split(a, "\n\n") + Split(b, "\n\n")
  {
    hide Split;
    var tail := "\n\n" + b;
    assert a + "\n\n" + b == a + tail;
    if a == "" {
      assert a + tail == tail;
      CutFirst(b);
      SplitNone();
    } else if |a| >= 2 && a[0] == '\n' && a[1] == '\n' {
      SplitOfSum(a[2..], b);
      CutFirst(a[2..]);
      CutFirst(a[2..] + tail);
      assert a[2..] + "\n\n" + b == a[2..] + tail;
      assert a == "\n\n" + a[2..] && a + tail == "\n\n" + (a[2..] + tail);
    } else {
      SplitOfSum(a[1..], b);
      ExtendFirst(a[0], a[1..]);
      ExtendFirst(a[0], a[1..] + tail);
      assert a[1..] + "\n\n" + b == a[1..] + tail;
      assert a == [a[0]] + a[1..] && a + tail == [a[0]] + (a[1..] + tail);
    }
  }

  lemma SplitNone()
    ensures Split("", "\n\n") == [""]
  {
  }

  /** A blank line between two texts, neither of which continues it, is where one's paragraphs end and
      the other's begin. */
  lemma BlankLineCuts(a: string, b: string)
    requires a == "" || (a[|a| - 1] != '\n' && a[|a| - 1] != '\r')
    requires b == "" || (b[0] != '\n' && b[0] != '\r')
    ensures Paragraphs(a + "\n\n" + b) == Paragraphs(a) + Paragraphs(b)
  {
    var x, y := ReplaceAll(a, "\r\n", "\n"), ReplaceAll(b, "\r\n", "\n");
    ReplaceOfSum(a + "\n\n", b);
    ReplaceOfSum(a, "\n\n");
    NothingToReplace("\n\n");
    ReplaceEnds(a);
    CapOfSum(x + "\n\n", y, 0);
    CapOfSum(x, "\n\n", 0);
    TwoNewlines();
    CapEnds(x, 0);
    SplitOfSum(CapRuns(x, 0), CapRuns(y, 0));
  }

  lemma TwoNewlines()
    ensures CapRuns("\n\n", 0) == "\n\n"
  {
    assert "\n\n"[1..] == "\n" && "\n"[1..] == "";
  }

  lemma {:induction false} ReplaceEnds(s: string)
    requires s == "" || s[|s| - 1] != '\n'
    ensures var r := ReplaceAll(s, "\r\n", "\n"); r == "" || r[|r| - 1] != '\n'
  {
    if s != "" {
      ReplaceEnds(if "\r\n" <= s then s[2..] else s[1..]);
    }
  }

  lemma {:induction false} CapEnds(s: string, seen: nat)
    requires s == "" || s[|s| - 1] != '\n'
    ensures var r := CapRuns(s, seen); if s == "" then r == "" else r != "" && r[|r| - 1] != '\n'
  {
    if s != "" {
      CapEnds(s[1..], if s[0] != '\n' then 0 else if seen < 2 then seen + 1 else seen);
    }
  }

  // ----- What is trimmed -----

  /** The 25 characters that count as white space. */
  const WHITE :=
    "\t\n\U{b}\U{c}\r \U{85}\U{A0}\U{1680}\U{2000}\U{2001}\U{2002}\U{2003}\U{2004}\U{2005}\U{2006}\U{2007}"
    + "\U{2008}\U{2009}\U{200A}\U{2028}\U{2029}\U{202F}\U{205F}\U{3000}"

  predicate White(s: string) {
    forall c | c in s :: c in WHITE
  }

  lemma SpaceIsWhite(c: char)
    ensures IsSpace(c) <==> c in WHITE
  {
    if c in WHITE {
      var i :| 0 <= i < |WHITE| && WHITE[i] == c;
    }
    if IsSpace(c) {
      var i := Place(c);
      assert WHITE[i] == c;
    }
  }

  function Place(c: char): (i: nat)
    requires IsSpace(c)
    ensures i < 25
  {
    if c <= '\r' then c as int - 9
    else if c == ' ' then 5
    else if c <= '\U{A0}' then (if c == '\U{85}' then 6 else 7)
    else if c == '\U{1680}' then 8
    else if c <= '\U{200A}' then 9 + (c as int - 0x2000)
    else if c == '\U{2028}' then 20
    else if c == '\U{2029}' then 21
    else if c == '\U{202F}' then 22
    else if c == '\U{205F}' then 23
    else 24
  }

  /** Trimming takes white space from both ends and stops at the first other character. */
  lemma TrimmedIs(s: string)
    ensures exists l, r :: TrimsTo(s, l, TrimSpace(s), r)
  {
    var t := TrimLeft(s);
    TrimmedLeftIs(s);
    TrimmedRightIs(t);
    Trimmed(s);
    var l, r := |s| - |t|, |s| - |t| + |TrimSpace(s)|;
    assert TrimsTo(s, l, TrimSpace(s), r) by {
      hide TrimLeft, TrimRight, IsSpace;
      EndsAreOther(TrimSpace(s));
      assert s[l..r] == t[..r - l];
      assert s[r..] == t[r - l..];
    }
  }

  ghost predicate TrimsTo(s: string, l: int, t: string, r: int) {
    && 0 <= l <= r <= |s| && s[l..r] == t && White(s[..l]) && White(s[r..])
    && (t != "" ==> t[0] !in WHITE && t[|t| - 1] !in WHITE)
  }

  lemma EndsAreOther(t: string)
    ensures t != "" && !IsSpace(t[0]) ==> t[0] !in WHITE
    ensures t != "" && !IsSpace(t[|t| - 1]) ==> t[|t| - 1] !in WHITE
  {
    if t != "" {
      SpaceIsWhite(t[0]);
      SpaceIsWhite(t[|t| - 1]);
    }
  }

  lemma {:induction false} TrimmedLeftIs(s: string)
    ensures var n := |s| - |TrimLeft(s)|; n >= 0 && TrimLeft(s) == s[n..] && White(s[..n])
  {
    hide IsSpace, WHITE;
    if s != "" && IsSpace(s[0]) {
      TrimmedLeftIs(s[1..]);
      SpaceIsWhite(s[0]);
      var n := |s| - |TrimLeft(s)|;
      assert s[..n] == [s[0]] + s[1..][..n - 1];
    }
  }

  lemma {:induction false} TrimmedRightIs(s: string)
    ensures var n := |TrimRight(s)|; n <= |s| && TrimRight(s) == s[..n] && White(s[n..])
  {
    hide IsSpace, WHITE;
    if s != "" && IsSpace(s[|s| - 1]) {
      TrimmedRightIs(s[..|s| - 1]);
      SpaceIsWhite(s[|s| - 1]);
      var n := |TrimRight(s)|;
      assert s[n..] == s[..|s| - 1][n..] + [s[|s| - 1]];
    }
  }

  // ----- Which pieces become records -----

  /** Piece i becomes a record at base + i with its trimmed text, unless nothing is left of it. */
  ghost predicate TellsRows(pieces: seq<string>, rows: seq<Row>, surface: string, base: int) {
    && (forall row | row in rows :: row.surface == surface && 0 <= row.ts - base < |pieces|
                                    && row.payload == TrimSpace(pieces[row.ts - base]) != "")
    && (forall i | 0 <= i < |pieces| && TrimSpace(pieces[i]) != "" ::
          Row(surface, base + i, TrimSpace(pieces[i])) in rows)
  }

  /** The pieces of which nothing is left are reported by their number from 1. */
  ghost predicate TellsBlanks(pieces: seq<string>, skipped: seq<nat>) {
    && (forall n | n in skipped :: 1 <= n <= |pieces| && TrimSpace(pieces[n - 1]) == "")
    && (forall i | 0 <= i < |pieces| && TrimSpace(pieces[i]) == "" :: i + 1 in skipped)
  }

  lemma OneRowMore(pieces: seq<string>, piece: string, rows: seq<Row>, surface: string, base: int)
    requires TellsRows(pieces, rows, surface, base)
    ensures TellsRows(pieces + [piece], rows + RowOf(piece, surface, base + |pieces|), surface, base)
  {
    hide TrimSpace;
    var more, row := pieces + [piece], RowOf(piece, surface, base + |pieces|);
    assert forall i | 0 <= i < |pieces| :: more[i] == pieces[i];
    forall i | 0 <= i < |more| && TrimSpace(more[i]) != ""
      ensures Row(surface, base + i, TrimSpace(more[i])) in rows + row
    {
      if i < |pieces| {
        assert Row(surface, base + i, TrimSpace(pieces[i])) in rows;
      }
    }
    forall r | r in rows + row
      ensures r.surface == surface && 0 <= r.ts - base < |more| && r.payload == TrimSpace(more[r.ts - base]) != ""
    {
      if r in rows {
        assert more[r.ts - base] == pieces[r.ts - base];
      }
    }
  }

  function BlankAt(piece: string, n: nat): seq<nat> {
    if TrimSpace(piece) == "" then [n + 1] else []
  }

  lemma OneBlankMore(pieces: seq<string>, piece: string, skipped: seq<nat>)
    requires TellsBlanks(pieces, skipped)
    ensures TellsBlanks(pieces + [piece], skipped + BlankAt(piece, |pieces|))
  {
    hide TrimSpace;
    var more, after := pieces + [piece], skipped + BlankAt(piece, |pieces|);
    assert forall i | 0 <= i < |pieces| :: more[i] == pieces[i];
    forall i | 0 <= i < |more| && TrimSpace(more[i]) == ""
      ensures i + 1 in after
    {
      if i < |pieces| {
        assert i + 1 in skipped;
      }
    }
    forall n | n in after
      ensures 1 <= n <= |more| && TrimSpace(more[n - 1]) == ""
    {
      if n in skipped {
        assert more[n - 1] == pieces[n - 1];
      }
    }
  }

  lemma LastPiece(pieces: seq<string>, surface: string, base: int)
    requires pieces != []
    ensures var n := |pieces| - 1;
            && pieces[..n] + [pieces[n]] == pieces
            && RowsOf(pieces, surface, base) == RowsOf(pieces[..n], surface, base) + RowOf(pieces[n], surface, base + n)
            && BlanksOf(pieces) == BlanksOf(pieces[..n]) + BlankAt(pieces[n], n)
  {
    hide TrimSpace;
  }

  lemma {:induction false} BlanksIncrease(pieces: seq<string>)
    ensures forall k | 0 <= k < |BlanksOf(pieces)| :: BlanksOf(pieces)[k] <= |pieces|
    ensures forall j, k | 0 <= j < k < |BlanksOf(pieces)| :: BlanksOf(pieces)[j] < BlanksOf(pieces)[k]
  {
    if pieces != [] {
      hide TrimSpace;
      BlanksIncrease(pieces[..|pieces| - 1]);
    }
  }

  lemma {:induction false} RowsTellPieces(pieces: seq<string>, surface: string, base: int)
    ensures TellsRows(pieces, RowsOf(pieces, surface, base), surface, base)
    ensures TellsBlanks(pieces, BlanksOf(pieces))
  {
    if pieces == [] {
      assert RowsOf(pieces, surface, base) == [] && BlanksOf(pieces) == [];
    } else {
      hide *;
      var n := |pieces| - 1;
      RowsTellPieces(pieces[..n], surface, base);
      LastPiece(pieces, surface, base);
      OneRowMore(pieces[..n], pieces[n], RowsOf(pieces[..n], surface, base), surface, base);
      OneBlankMore(pieces[..n], pieces[n], BlanksOf(pieces[..n]));
    }
  }

  // ----- What a section holds -----

  lemma {:induction false} TextIsTheLines(lines: seq<string>)
    requires lines != []
    ensures TextOf(lines) == JoinWith(lines, "\n") + "\n"
  {
    if |lines| > 1 {
      var n := |lines| - 1;
      TextIsTheLines(lines[..n]);
      JoinOfSum(lines[..n], [lines[n]], "\n");
      assert lines[..n] + [lines[n]] == lines;
    }
  }

  /** The sections are, in the order of the groups, the trimmed lines of each group that holds more than
      white space. */
  ghost predicate SectionsAre(groups: seq<seq<string>>, sections: seq<string>, from: seq<nat>) {
    && |from| == |sections|
    && (forall j, k | 0 <= j < k < |from| :: from[j] < from[k])
    && (forall k | 0 <= k < |from| :: from[k] < |groups| && sections[k] == TrimSpace(TextOf(groups[from[k]])) != "")
    && (forall i | 0 <= i < |groups| :: i in from || TrimSpace(TextOf(groups[i])) == "")
  }

  lemma OneGroupMore(groups: seq<seq<string>>, group: seq<string>, sections: seq<string>, from: seq<nat>)
    requires SectionsAre(groups, sections, from)
    ensures TrimSpace(TextOf(group)) == "" ==> SectionsAre(groups + [group], sections, from)
    ensures TrimSpace(TextOf(group)) != "" ==>
              SectionsAre(groups + [group], sections + [TrimSpace(TextOf(group))], from + [|groups|])
  {
    hide TrimSpace, TextOf;
    var more := groups + [group];
    assert forall i | 0 <= i < |groups| :: more[i] == groups[i];
  }

  lemma LastGroup(groups: seq<seq<string>>)
    requires groups != []
    ensures var n, before := |groups| - 1, Sections(groups[..|groups| - 1]);
            Sections(groups) == if TrimSpace(TextOf(groups[n])) == "" then before
                                else before + [TrimSpace(TextOf(groups[n]))]
  {
    hide TrimSpace, TextOf;
  }

  lemma {:induction false} SectionsAreGroups(groups: seq<seq<string>>) returns (from: seq<nat>)
    ensures SectionsAre(groups, Sections(groups), from)
  {
    from := [];
    if groups != [] {
      hide *;
      var n := |groups| - 1;
      from := SectionsAreGroups(groups[..n]);
      LastGroup(groups);
      assert groups[..n] + [groups[n]] == groups;
      OneGroupMore(groups[..n], groups[n], Sections(groups[..n]), from);
      if TrimSpace(TextOf(groups[n])) != "" {
        from := from + [n];
      }
    }
  }

  /** Markdown with two sections or more keeps them, numbered from the base; with fewer it is read as text. */
  lemma MarkdownFallsBackIff(body: string, surface: string, base: int)
    ensures var r, sections := ParsedMarkdown(body, surface, base), Sections(Groups(Split(body, "\n")));
            if |sections| >= 2 then
              && r.detected == Markdown && r.skipped == [] && |r.rows| == |sections|
              && forall k | 0 <= k < |sections| :: r.rows[k] == Row(surface, base + k, sections[k])
            else
              r.detected == Text && TellsRows(Paragraphs(body), r.rows, surface, base)
              && TellsBlanks(Paragraphs(body), r.skipped)
  {
    RowsTellPieces(Paragraphs(body), surface, base);
    hide TellsRows, TellsBlanks, Paragraphs, RowsOf, BlanksOf, Sections, Groups, Split;
  }
}
