/** Splitting an import bundle into records: paragraphs of a text, sections of a markdown file.
    Text is a sequence of characters; a record carries the bundle's surface and a time of its own. */
module Bundle {
  import opened Collections

  datatype Row = Row(surface: string, ts: int, payload: string)

  datatype Format = Markdown | Text

  /** `skipped` numbers, from 1, the pieces dropped as empty. */
  datatype Parsed = Parsed(detected: Format, rows: seq<Row>, skipped: seq<nat>)

  // ----- The string library -----

  /** Unicode White_Space, which is what TrimSpace trims. */
  predicate IsSpace(c: char) {
    || '\t' <= c <= '\r' || c == ' ' || c == '\U{85}' || c == '\U{A0}' || c == '\U{1680}'
    || '\U{2000}' <= c <= '\U{200A}' || c == '\U{2028}' || c == '\U{2029}' || c == '\U{202F}'
    || c == '\U{205F}' || c == '\U{3000}'
  }

  function TrimLeft(s: string): string {
    if s != "" && IsSpace(s[0]) then TrimLeft(s[1..]) else s
  }

  function TrimRight(s: string): string {
    if s != "" && IsSpace(s[|s| - 1]) then TrimRight(s[..|s| - 1]) else s
  }

  function TrimSpace(s: string): string {
    TrimRight(TrimLeft(s))
  }

  predicate StartsWith(s: string, prefix: string): (r: bool)
    ensures r <==> prefix <= s
  {
    |s| >= |prefix| && s[..|prefix|] == prefix
  }

  predicate Contains(s: string, part: string) {
    StartsWith(s, part) || (s != "" && Contains(s[1..], part))
  }

  /** Leftmost occurrences first, none overlapping. */
  function ReplaceAll(s: string, old_: string, by_: string): string
    requires old_ != ""
  {
    if s == "" then ""
    else if StartsWith(s, old_) then by_ + ReplaceAll(s[|old_|..], old_, by_)
    else [s[0]] + ReplaceAll(s[1..], old_, by_)
  }

  /** The pieces between leftmost occurrences of the separator. */
  function Split(s: string, sep: string): (pieces: seq<string>)
    requires sep != ""
    ensures pieces != []
  {
    if s == "" then [""]
    else if StartsWith(s, sep) then [""] + Split(s[|sep|..], sep)
    else
      var rest := Split(s[1..], sep);
      [[s[0]] + rest[0]] + rest[1..]
  }

  function JoinWith(pieces: seq<string>, sep: string): string {
    if pieces == [] then "" else if |pieces| == 1 then pieces[0] else pieces[0] + sep + JoinWith(pieces[1..], sep)
  }

  // ----- Paragraphs -----

  const CRLF := "\r\n"
  const NL := "\n"
  const NL2 := "\n\n"
  const NL3 := "\n\n\n"

  /** Runs of newlines cut to two, when `seen` newlines stand directly before. */
  function CapRuns(s: string, seen: nat): string {
    if s == "" then ""
    else if s[0] != '\n' then [s[0]] + CapRuns(s[1..], 0)
    else if seen < 2 then ['\n'] + CapRuns(s[1..], seen + 1)
    else CapRuns(s[1..], seen)
  }

  function Paragraphs(body: string): seq<string> {
    Split(CapRuns(ReplaceAll(body, CRLF, NL), 0), NL2)
  }

  method SplitParagraphs(body: string) returns (paras: seq<string>)
    ensures paras == Paragraphs(body)
    ensures JoinWith(paras, "\n\n") == CapRuns(ReplaceAll(body, "\r\n", "\n"), 0)
    ensures forall p | p in paras :: !Contains(p, "\n\n")
    ensures forall i | 1 <= i < |paras| :: !("\n" <= paras[i])
  {
    var s := ReplaceAll(body, CRLF, NL);
    while Contains(s, NL3)
      invariant CapRuns(s, 0) == CapRuns(ReplaceAll(body, CRLF, NL), 0)
      decreases |s|
    {
      ReplacingShortens(s);
      CapSeesNoReplacement(s, 0);
      s := ReplaceAll(s, NL3, NL2);
    }
    NothingToCap(s, 0);
    paras := Split(s, NL2);
    SplitRejoins(s, NL2);
    ParagraphsHaveNoBlankLine(body);
  }

  /** A pass over three newlines in a row shortens the text, so the passes end. */
  lemma {:induction false} ReplacingShortens(s: string)
    ensures |ReplaceAll(s, NL3, NL2)| <= |s|
    ensures Contains(s, NL3) ==> |ReplaceAll(s, NL3, NL2)| < |s|
  {
    if s != "" {
      ReplacingShortens(if StartsWith(s, NL3) then s[3..] else s[1..]);
    }
  }

  /** The passes end where one cut of every run ends. */
  lemma {:induction false} CapSeesNoReplacement(s: string, seen: nat)
    requires seen <= 2
    ensures CapRuns(ReplaceAll(s, NL3, NL2), seen) == CapRuns(s, seen)
  {
    if s != "" {
      if StartsWith(s, NL3) {
        CapSeesNoReplacement(s[3..], 2);
        CapThree(s[3..], seen);
        assert s == NL3 + s[3..];
        CapTwo(ReplaceAll(s[3..], NL3, NL2), seen);
      } else {
        var rest := ReplaceAll(s[1..], NL3, NL2);
        assert ReplaceAll(s, NL3, NL2) == [s[0]] + rest && ([s[0]] + rest)[1..] == rest;
        CapSeesNoReplacement(s[1..], if s[0] != '\n' then 0 else if seen < 2 then seen + 1 else seen);
      }
    }
  }

  lemma CapOne(t: string, seen: nat)
    ensures CapRuns(NL + t, seen) == if seen < 2 then NL + CapRuns(t, seen + 1) else CapRuns(t, seen)
  {
    assert (NL + t)[1..] == t;
  }

  lemma CapTwo(t: string, seen: nat)
    requires seen <= 2
    ensures CapRuns(NL2 + t, seen) == NL2[seen..] + CapRuns(t, 2)
  {
    hide CapRuns;
    CapOne(NL + t, seen);
    CapOne(t, if seen < 2 then seen + 1 else seen);
    assert NL2 + t == NL + (NL + t);
    assert NL2[1..] == NL && NL2[2..] == "";
    assert NL2[0..] + CapRuns(t, 2) == NL + (NL + CapRuns(t, 2));
  }

  lemma CapThree(t: string, seen: nat)
    requires seen <= 2
    ensures CapRuns(NL3 + t, seen) == NL2[seen..] + CapRuns(t, 2)
  {
    hide *;
    ThreeNewlines(t);
    CapTwo(NL + t, seen);
    CapOne(t, 2);
  }

  lemma ThreeNewlines(t: string)
    ensures NL3 + t == NL2 + (NL + t) && NL2 + t == NL + (NL + t)
  {
  }

  lemma {:induction false} NothingToCap(s: string, seen: nat)
    requires !Contains(s, NL3) && seen <= 2
    requires seen > 0 ==> !StartsWith(s, NL3[seen..])
    ensures CapRuns(s, seen) == s
  {
    if s != "" {
      if s[0] == '\n' {
        assert NL3[seen..][..1] == NL;
      }
      NothingToCap(s[1..], if s[0] != '\n' then 0 else seen + 1);
    }
  }

  lemma {:induction false} CappedRunsAreShort(s: string, seen: nat)
    requires seen <= 2
    ensures !Contains(CapRuns(s, seen), NL3)
    ensures !StartsWith(CapRuns(s, seen), NL3[seen..])
  {
    if s != "" {
      var r := CapRuns(s, seen);
      if s[0] != '\n' {
        CappedRunsAreShort(s[1..], 0);
        assert r[0] == s[0] && r[1..] == CapRuns(s[1..], 0);
        assert NL3[seen..][0] == '\n';
      } else if seen < 2 {
        CappedRunsAreShort(s[1..], seen + 1);
        assert r[0] == '\n' && r[1..] == CapRuns(s[1..], seen + 1);
        assert NL3[seen..][1..] == NL3[seen + 1..];
        AfterFirst(r, NL3[seen..]);
        AfterFirst(r, NL3);
        NewlinesStart(r[1..]);
        assert NL3[1..] == NL2 && NL3[2..] == NL;
      } else {
        CappedRunsAreShort(s[1..], seen);
      }
    }
  }

  lemma AfterFirst(s: string, prefix: string)
    requires prefix != ""
    ensures StartsWith(s, prefix) ==> StartsWith(s[1..], prefix[1..])
  {
  }

  lemma NewlinesStart(s: string)
    ensures StartsWith(s, NL3) ==> StartsWith(s, NL2)
    ensures StartsWith(s, NL2) ==> StartsWith(s, NL)
  {
    assert NL3[..2] == NL2 && NL2[..1] == NL;
    assert |s| >= 3 ==> s[..3][..2] == s[..2];
    assert |s| >= 2 ==> s[..2][..1] == s[..1];
  }

  // ----- Split and join -----

  /** Splitting loses only the separators. */
  lemma {:induction false} SplitRejoins(s: string, sep: string)
    requires sep != ""
    ensures JoinWith(Split(s, sep), sep) == s
  {
    if s != "" {
      if StartsWith(s, sep) {
        var rest := Split(s[|sep|..], sep);
        SplitRejoins(s[|sep|..], sep);
        assert ([""] + rest)[1..] == rest;
        assert s == sep + s[|sep|..];
      } else {
        var rest := Split(s[1..], sep);
        SplitRejoins(s[1..], sep);
        JoinExtends(s[0], rest, sep);
      }
    }
  }

  lemma JoinExtends(c: char, pieces: seq<string>, sep: string)
    requires pieces != []
    ensures JoinWith([[c] + pieces[0]] + pieces[1..], sep) == [c] + JoinWith(pieces, sep)
  {
    assert ([[c] + pieces[0]] + pieces[1..])[1..] == pieces[1..];
  }

  lemma {:induction false} FirstPieceStarts(s: string, sep: string)
    requires sep != ""
    ensures StartsWith(s, Split(s, sep)[0])
  {
    if s != "" && !StartsWith(s, sep) {
      FirstPieceStarts(s[1..], sep);
      var first := Split(s[1..], sep)[0];
      assert s[..|first| + 1] == [s[0]] + s[1..][..|first|];
    }
  }

  lemma StartOfStart(s: string, first: string, prefix: string)
    requires StartsWith(s, first)
    ensures StartsWith(first, prefix) ==> StartsWith(s, prefix)
  {
    assert |prefix| <= |first| ==> s[..|first|][..|prefix|] == s[..|prefix|];
  }

  lemma ThirdNewline(s: string)
    requires StartsWith(s, NL2)
    ensures StartsWith(s[2..], NL) ==> StartsWith(s, NL3)
  {
    assert |s| >= 3 ==> s[..3] == s[..2] + s[2..][..1];
  }

  /** No piece holds a separator. */
  lemma {:induction false} PiecesAreClean(s: string, sep: string)
    requires sep != ""
    ensures forall piece | piece in Split(s, sep) :: !Contains(piece, sep)
  {
    if s != "" {
      if StartsWith(s, sep) {
        PiecesAreClean(s[|sep|..], sep);
      } else {
        PiecesAreClean(s[1..], sep);
        var rest := Split(s[1..], sep);
        FirstPieceStarts(s, sep);
        var first := [s[0]] + rest[0];
        assert first[1..] == rest[0];
        StartOfStart(s, first, sep);
      }
    }
  }

  /** Where no run of newlines is longer than two, a separator takes all of its run: no later piece
      starts with a newline. */
  lemma {:induction false} LaterPiecesStartClean(s: string)
    requires !Contains(s, NL3)
    ensures forall i | 1 <= i < |Split(s, NL2)| :: !StartsWith(Split(s, NL2)[i], NL)
  {
    if s != "" {
      if StartsWith(s, NL2) {
        LaterPiecesStartClean(s[2..]);
        var first := Split(s[2..], NL2)[0];
        FirstPieceStarts(s[2..], NL2);
        StartOfStart(s[2..], first, NL);
        ThirdNewline(s);
      } else {
        LaterPiecesStartClean(s[1..]);
      }
    }
  }

  /** A paragraph has no blank line inside, and none but the first starts with one. */
  lemma ParagraphsHaveNoBlankLine(body: string)
    ensures forall p | p in Paragraphs(body) :: !Contains(p, NL2)
    ensures forall i | 1 <= i < |Paragraphs(body)| :: !StartsWith(Paragraphs(body)[i], NL)
  {
    var s := CapRuns(ReplaceAll(body, CRLF, NL), 0);
    CappedRunsAreShort(ReplaceAll(body, CRLF, NL), 0);
    PiecesAreClean(s, NL2);
    LaterPiecesStartClean(s);
  }

  // ----- What survives apart from white space -----

  function Bare(s: string): string {
    if s == "" then "" else (if IsSpace(s[0]) then "" else [s[0]]) + Bare(s[1..])
  }

  lemma {:induction false} BareOfSum(a: string, b: string)
    ensures Bare(a + b) == Bare(a) + Bare(b)
  {
    hide IsSpace;
    if a == "" {
      assert a + b == b;
    } else {
      BareOfSum(a[1..], b);
      assert (a + b)[1..] == a[1..] + b;
      Regroup(if IsSpace(a[0]) then "" else [a[0]], Bare(a[1..]), Bare(b));
    }
  }

  lemma {:induction false} BareOfTrimLeft(s: string)
    ensures Bare(TrimLeft(s)) == Bare(s)
  {
    hide IsSpace;
    if s != "" && IsSpace(s[0]) {
      BareOfTrimLeft(s[1..]);
    }
  }

  lemma {:induction false} BareOfTrimRight(s: string)
    ensures Bare(TrimRight(s)) == Bare(s)
  {
    hide IsSpace;
    if s != "" && IsSpace(s[|s| - 1]) {
      BareOfTrimRight(s[..|s| - 1]);
      BareOfSum(s[..|s| - 1], [s[|s| - 1]]);
      assert s == s[..|s| - 1] + [s[|s| - 1]];
      assert Bare([s[|s| - 1]]) == "";
    }
  }

  lemma BareOfTrim(s: string)
    ensures Bare(TrimSpace(s)) == Bare(s)
  {
    BareOfTrimLeft(s);
    BareOfTrimRight(TrimLeft(s));
  }

  lemma {:induction false} BareOfReplace(s: string, old_: string, by_: string)
    requires old_ != "" && Bare(old_) == Bare(by_)
    ensures Bare(ReplaceAll(s, old_, by_)) == Bare(s)
  {
    if s != "" {
      if StartsWith(s, old_) {
        var rest := s[|old_|..];
        BareOfReplace(rest, old_, by_);
        assert s == old_ + rest;
        BareOfSum(old_, rest);
        BareOfSum(by_, ReplaceAll(rest, old_, by_));
      } else {
        BareOfReplace(s[1..], old_, by_);
        BareOfSum([s[0]], s[1..]);
        BareOfSum([s[0]], ReplaceAll(s[1..], old_, by_));
        assert s == [s[0]] + s[1..];
      }
    }
  }

  lemma {:induction false} BareOfCapped(s: string, seen: nat)
    ensures Bare(CapRuns(s, seen)) == Bare(s)
  {
    if s != "" {
      var next := if s[0] != '\n' then 0 else if seen < 2 then seen + 1 else seen;
      BareOfCapped(s[1..], next);
      assert IsSpace('\n');
      BareOfSum([s[0]], CapRuns(s[1..], next));
      BareOfSum([s[0]], s[1..]);
      assert s == [s[0]] + s[1..];
      assert s[0] == '\n' ==> Bare([s[0]]) == "";
    }
  }

  lemma BareOfThree(a: string, b: string, c: string)
    ensures Bare(a + b + c) == Bare(a) + Bare(b) + Bare(c)
  {
    BareOfSum(a + b, c);
    BareOfSum(a, b);
  }

  /** Joining with white space between adds nothing else. */
  lemma {:induction false} BareOfJoin(pieces: seq<string>, sep: string)
    requires Bare(sep) == ""
    ensures Bare(JoinWith(pieces, sep)) == Bare(Flatten(pieces))
  {
    hide Bare, Flatten;
    if |pieces| == 1 {
      FlattenOne(pieces[0]);
      assert pieces == [pieces[0]];
    } else if pieces == [] {
      assert Flatten(pieces) == "" by { FlatNone(); }
    } else {
      var first, rest := pieces[0], pieces[1..];
      BareOfJoin(rest, sep);
      FlattenRest(pieces);
      BareOfThree(first, sep, JoinWith(rest, sep));
      BareOfSum(first, Flatten(rest));
    }
  }

  lemma FlatNone()
    ensures Flatten([]) == ""
  {
  }

  lemma BareOfNewlines()
    ensures Bare(NL) == "" && Bare(NL2) == "" && Bare(CRLF) == ""
  {
    assert NL[1..] == "" && NL2[1..] == NL && CRLF[1..] == NL;
  }

  lemma BareOfSplit(s: string, sep: string)
    requires sep != "" && Bare(sep) == ""
    ensures Bare(Flatten(Split(s, sep))) == Bare(s)
  {
    SplitRejoins(s, sep);
    BareOfJoin(Split(s, sep), sep);
  }

  lemma BareOfParagraphs(body: string)
    ensures Bare(Flatten(Paragraphs(body))) == Bare(body)
  {
    BareOfNewlines();
    BareOfReplace(body, CRLF, NL);
    BareOfCapped(ReplaceAll(body, CRLF, NL), 0);
    BareOfSplit(CapRuns(ReplaceAll(body, CRLF, NL), 0), NL2);
  }

  // ----- Text -----

  /** The record of a piece at position i, if it is not blank. */
  function RowOf(piece: string, surface: string, ts: int): seq<Row> {
    if TrimSpace(piece) == "" then [] else [Row(surface, ts, TrimSpace(piece))]
  }

  function RowsOf(pieces: seq<string>, surface: string, base: int): seq<Row> {
    if pieces == [] then []
    else
      var n := |pieces| - 1;
      RowsOf(pieces[..n], surface, base) + RowOf(pieces[n], surface, base + n)
  }

  function BlanksOf(pieces: seq<string>): seq<nat> {
    if pieces == [] then []
    else
      var n := |pieces| - 1;
      BlanksOf(pieces[..n]) + (if TrimSpace(pieces[n]) == "" then [n + 1] else [])
  }

  function ParsedText(body: string, surface: string, base: int): Parsed {
    Parsed(Text, RowsOf(Paragraphs(body), surface, base), BlanksOf(Paragraphs(body)))
  }

  method ParseText(body: string, surface: string, base: int) returns (res: Parsed)
    ensures res == ParsedText(body, surface, base)
  {
    hide TrimSpace;
    var rows: seq<Row>, skipped: seq<nat> := [], [];
    var paras := SplitParagraphs(body);
    for i := 0 to |paras|
      invariant rows == RowsOf(paras[..i], surface, base)
      invariant skipped == BlanksOf(paras[..i])
    {
      assert paras[..i + 1][..i] == paras[..i];
      var p := TrimSpace(paras[i]);
      if p == "" {
        skipped := skipped + [i + 1];
        continue;
      }
      rows := rows + [Row(surface, base + i, p)];
    }
    assert paras[..|paras|] == paras;
    res := Parsed(Text, rows, skipped);
  }

  // ----- Markdown -----

  predicate IsHeader(line: string): (r: bool)
    ensures r <==> || (|line| >= 2 && line[0] == '#' && line[1] == ' ')
                   || (|line| >= 3 && line[0] == '#' && line[1] == '#' && line[2] == ' ')
  {
    StartsWith(line, "# ") || StartsWith(line, "## ")
  }

  /** The lines cut before each header. */
  function Groups(lines: seq<string>): (groups: seq<seq<string>>)
    ensures groups != []
  {
    if lines == [] then [[]]
    else
      var g, line := Groups(lines[..|lines| - 1]), lines[|lines| - 1];
      if IsHeader(line) then g + [[line]] else g[..|g| - 1] + [g[|g| - 1] + [line]]
  }

  function TextOf(lines: seq<string>): string {
    if lines == [] then "" else TextOf(lines[..|lines| - 1]) + lines[|lines| - 1] + NL
  }

  /** Adds a section unless it is blank. */
  function Flush(sections: seq<string>, cur: string): seq<string> {
    if TrimSpace(cur) == "" then sections else sections + [TrimSpace(cur)]
  }

  function Sections(groups: seq<seq<string>>): seq<string> {
    if groups == [] then [] else Flush(Sections(groups[..|groups| - 1]), TextOf(groups[|groups| - 1]))
  }

  function Numbered(sections: seq<string>, surface: string, base: int): seq<Row> {
    seq(|sections|, i requires 0 <= i < |sections| => Row(surface, base + i, sections[i]))
  }

  function ParsedMarkdown(body: string, surface: string, base: int): Parsed {
    var sections := Sections(Groups(Split(body, NL)));
    if |sections| <= 1 then ParsedText(body, surface, base)
    else Parsed(Markdown, Numbered(sections, surface, base), [])
  }

  method ParseMarkdown(body: string, surface: string, base: int) returns (res: Parsed)
    ensures res == ParsedMarkdown(body, surface, base)
  {
    hide IsHeader, Flush;
    var lines := Split(body, NL);
    var sections: seq<string> := [];
    var cur := "";
    for i := 0 to |lines|
      invariant sections == Sections(Front(Groups(lines[..i])))
      invariant cur == TextOf(Last(Groups(lines[..i])))
    {
      var line := lines[i];
      GroupsGrow(lines, i);
      if IsHeader(line) {
        sections := Flush(sections, cur);
        cur := "";
      }
      cur := cur + line;
      cur := cur + NL;
    }
    assert lines[..|lines|] == lines;
    sections := Flush(sections, cur);
    if |sections| <= 1 {
      res := ParseText(body, surface, base);
      return;
    }
    var rows: seq<Row> := [];
    for i := 0 to |sections|
      invariant |rows| == i && forall k | 0 <= k < i :: rows[k] == Row(surface, base + k, sections[k])
    {
      rows := rows + [Row(surface, base + i, sections[i])];
    }
    assert rows == Numbered(sections, surface, base);
    res := Parsed(Markdown, rows, []);
  }

  function Front<T>(s: seq<T>): seq<T>
    requires s != []
  {
    s[..|s| - 1]
  }

  function Last<T>(s: seq<T>): T
    requires s != []
  {
    s[|s| - 1]
  }

  lemma FrontAndLast<T>(s: seq<T>)
    requires s != []
    ensures Front(s) + [Last(s)] == s && Front(s) == s[..|s| - 1] && Last(s) == s[|s| - 1]
  {
  }

  lemma GroupsGrow(lines: seq<string>, i: nat)
    requires i < |lines|
    ensures var before, after := Groups(lines[..i]), Groups(lines[..i + 1]);
            if IsHeader(lines[i]) then Front(after) == before && TextOf(Last(after)) == lines[i] + NL
            else Front(after) == Front(before) && TextOf(Last(after)) == TextOf(Last(before)) + lines[i] + NL
  {
    assert lines[..i + 1][..i] == lines[..i];
    var g := Last(Groups(lines[..i]));
    assert (g + [lines[i]])[..|g|] == g;
    assert [lines[i]][..0] == [];
  }

  // ----- Nothing but white space is lost -----

  function Payloads(rows: seq<Row>): (r: seq<string>)
    ensures |r| == |rows| && forall i | 0 <= i < |rows| :: r[i] == rows[i].payload
  {
    seq(|rows|, i requires 0 <= i < |rows| => rows[i].payload)
  }

  lemma RowConserves(rows: seq<Row>, piece: string, surface: string, ts: int)
    ensures Bare(Flatten(Payloads(rows + RowOf(piece, surface, ts)))) == Bare(Flatten(Payloads(rows))) + Bare(piece)
  {
    BareOfTrim(piece);
    hide TrimSpace;
    var row := RowOf(piece, surface, ts);
    assert Payloads(rows + row) == Payloads(rows) + Payloads(row);
    FlattenSum(Payloads(rows), Payloads(row));
    FlattenOne(TrimSpace(piece));
    assert row != [] ==> Payloads(row) == [TrimSpace(piece)];
    BareOfSum(Flatten(Payloads(rows)), Flatten(Payloads(row)));
  }

  lemma RowsOfLast(pieces: seq<string>, surface: string, base: int)
    requires pieces != []
    ensures var n := |pieces| - 1;
            RowsOf(pieces, surface, base) == RowsOf(pieces[..n], surface, base) + RowOf(pieces[n], surface, base + n)
  {
  }

  lemma {:induction false} RowsConserve(pieces: seq<string>, surface: string, base: int)
    ensures Bare(Flatten(Payloads(RowsOf(pieces, surface, base)))) == Bare(Flatten(pieces))
  {
    if pieces != [] {
      hide RowsOf, RowOf, Bare, Payloads;
      var n := |pieces| - 1;
      RowsOfLast(pieces, surface, base);
      RowsConserve(pieces[..n], surface, base);
      RowConserves(RowsOf(pieces[..n], surface, base), pieces[n], surface, base + n);
      BareOfSum(Flatten(pieces[..n]), pieces[n]);
    }
  }

  lemma FlushConserves(sections: seq<string>, cur: string)
    ensures Bare(Flatten(Flush(sections, cur))) == Bare(Flatten(sections)) + Bare(cur)
  {
    BareOfTrim(cur);
    hide TrimSpace;
    FlattenSum(sections, [TrimSpace(cur)]);
    FlattenOne(TrimSpace(cur));
    BareOfSum(Flatten(sections), TrimSpace(cur));
  }

  /** What the sections of the groups hold. */
  ghost function Held(groups: seq<seq<string>>): string {
    Bare(Flatten(Sections(groups)))
  }

  lemma SectionsConserve(groups: seq<seq<string>>)
    requires groups != []
    ensures Held(groups) == Held(Front(groups)) + Bare(TextOf(Last(groups)))
  {
    FlushConserves(Sections(Front(groups)), TextOf(Last(groups)));
  }

  lemma BareOfLine(text: string, line: string)
    ensures Bare(text + line + NL) == Bare(text) + Bare(line)
    ensures Bare(line + NL) == Bare(line)
  {
    BareOfNewlines();
    BareOfSum(text + line, NL);
    BareOfSum(text, line);
    BareOfSum(line, NL);
  }

  lemma LineIsHeld(lines: seq<string>, i: nat)
    requires i < |lines|
    ensures Held(Groups(lines[..i + 1])) == Held(Groups(lines[..i])) + Bare(lines[i])
  {
    hide Groups, Held, TextOf, Bare, IsHeader, Front, Last;
    var before, after, line := Groups(lines[..i]), Groups(lines[..i + 1]), lines[i];
    GroupsGrow(lines, i);
    SectionsConserve(before);
    SectionsConserve(after);
    BareOfLine(TextOf(Last(before)), line);
    Regroup(Held(Front(before)), Bare(TextOf(Last(before))), Bare(line));
  }

  lemma NothingHeld()
    ensures Held(Groups([])) == Bare(Flatten([]))
  {
    var none: seq<seq<string>> := [[]];
    SectionsConserve(none);
    assert Front(none) == [];
  }

  lemma {:induction false} GroupsConserve(lines: seq<string>)
    ensures Held(Groups(lines)) == Bare(Flatten(lines))
  {
    if lines == [] {
      NothingHeld();
    } else {
      hide Groups, Held, Bare;
      var n := |lines| - 1;
      GroupsConserve(lines[..n]);
      LineIsHeld(lines, n);
      assert lines[..n + 1] == lines;
      BareOfSum(Flatten(lines[..n]), lines[n]);
    }
  }

  /** Text and markdown bundles alike keep all that is not white space, in order. */
  lemma TextConserves(body: string, surface: string, base: int)
    ensures Bare(Flatten(Payloads(ParsedText(body, surface, base).rows))) == Bare(body)
  {
    RowsConserve(Paragraphs(body), surface, base);
    BareOfParagraphs(body);
  }

  lemma MarkdownConserves(body: string, surface: string, base: int)
    ensures Bare(Flatten(Payloads(ParsedMarkdown(body, surface, base).rows))) == Bare(body)
  {
    var sections := Sections(Groups(Split(body, NL)));
    if |sections| <= 1 {
      TextConserves(body, surface, base);
    } else {
      assert Payloads(Numbered(sections, surface, base)) == sections;
      GroupsConserve(Split(body, NL));
      BareOfNewlines();
      BareOfSplit(body, NL);
    }
  }

  // ----- The records -----

  /** Times increase from the base, one piece apart at least; every payload is trimmed and not empty. */
  ghost predicate WellFormed(rows: seq<Row>, surface: string, base: int) {
    && (forall i | 0 <= i < |rows| :: base <= rows[i].ts && rows[i].surface == surface)
    && (forall i, j | 0 <= i < j < |rows| :: rows[i].ts < rows[j].ts)
    && (forall row | row in rows :: row.payload != "" && !IsSpace(row.payload[0])
                                    && !IsSpace(row.payload[|row.payload| - 1]))
  }

  lemma {:induction false} TrimmedRight(s: string)
    ensures var t := TrimRight(s); t != "" ==> !IsSpace(t[|t| - 1]) && s != "" && t[0] == s[0]
  {
    if s != "" && IsSpace(s[|s| - 1]) {
      TrimmedRight(s[..|s| - 1]);
    }
  }

  lemma {:induction false} TrimmedLeft(s: string)
    ensures var t := TrimLeft(s); t != "" ==> !IsSpace(t[0])
  {
    if s != "" && IsSpace(s[0]) {
      TrimmedLeft(s[1..]);
    }
  }

  lemma Trimmed(s: string)
    ensures var t := TrimSpace(s); t != "" ==> !IsSpace(t[0]) && !IsSpace(t[|t| - 1])
  {
    TrimmedLeft(s);
    TrimmedRight(TrimLeft(s));
  }

  ghost predicate AllBefore(rows: seq<Row>, ts: int) {
    forall i | 0 <= i < |rows| :: rows[i].ts < ts
  }

  lemma PieceIsWellFormed(piece: string, surface: string, ts: int)
    ensures WellFormed(RowOf(piece, surface, ts), surface, ts)
    ensures AllBefore(RowOf(piece, surface, ts), ts + 1)
  {
    Trimmed(piece);
    hide TrimSpace, IsSpace;
  }

  lemma RowsExtend(rows: seq<Row>, row: seq<Row>, surface: string, base: int, ts: int)
    requires WellFormed(rows, surface, base) && AllBefore(rows, ts)
    requires WellFormed(row, surface, ts) && AllBefore(row, ts + 1) && base <= ts
    ensures WellFormed(rows + row, surface, base)
    ensures AllBefore(rows + row, ts + 1)
  {
    hide IsSpace;
  }

  lemma NoPieces(surface: string, base: int)
    ensures WellFormed(RowsOf([], surface, base), surface, base) && AllBefore(RowsOf([], surface, base), base)
  {
  }

  lemma {:induction false} RowsAreWellFormed(pieces: seq<string>, surface: string, base: int)
    ensures WellFormed(RowsOf(pieces, surface, base), surface, base)
    ensures AllBefore(RowsOf(pieces, surface, base), base + |pieces|)
  {
    hide *;
    if pieces == [] {
      NoPieces(surface, base);
    } else {
      var n := |pieces| - 1;
      RowsOfLast(pieces, surface, base);
      RowsAreWellFormed(pieces[..n], surface, base);
      PieceIsWellFormed(pieces[n], surface, base + n);
      RowsExtend(RowsOf(pieces[..n], surface, base), RowOf(pieces[n], surface, base + n), surface, base, base + n);
    }
  }

  /** Every piece becomes a record or is reported as skipped. */
  lemma {:induction false} EveryPieceIsCounted(pieces: seq<string>, surface: string, base: int)
    ensures |RowsOf(pieces, surface, base)| + |BlanksOf(pieces)| == |pieces|
  {
    if pieces != [] {
      EveryPieceIsCounted(pieces[..|pieces| - 1], surface, base);
    }
  }

  lemma {:induction false} SectionsAreTrimmed(groups: seq<seq<string>>)
    ensures forall s | s in Sections(groups) :: s != "" && !IsSpace(s[0]) && !IsSpace(s[|s| - 1])
  {
    if groups != [] {
      SectionsAreTrimmed(groups[..|groups| - 1]);
      Trimmed(TextOf(groups[|groups| - 1]));
    }
  }

  lemma ParsedIsWellFormed(body: string, surface: string, base: int)
    ensures WellFormed(ParsedText(body, surface, base).rows, surface, base)
    ensures WellFormed(ParsedMarkdown(body, surface, base).rows, surface, base)
  {
    RowsAreWellFormed(Paragraphs(body), surface, base);
    SectionsAreTrimmed(Groups(Split(body, NL)));
  }

  /** A line is a header exactly when it opens a group after the first. */
  ghost predicate HeadersOpen(groups: seq<seq<string>>) {
    && (forall i | 1 <= i < |groups| :: groups[i] != [])
    && (forall i, k | 0 <= i < |groups| && 0 <= k < |groups[i]| :: IsHeader(groups[i][k]) <==> i >= 1 && k == 0)
  }

  lemma HeaderOpens(groups: seq<seq<string>>, line: string)
    requires groups != [] && HeadersOpen(groups) && IsHeader(line)
    ensures HeadersOpen(groups + [[line]])
  {
    hide IsHeader;
    assert [line][0] == line;
  }

  lemma LineExtends(groups: seq<seq<string>>, line: string)
    requires groups != [] && HeadersOpen(groups) && !IsHeader(line)
    ensures HeadersOpen(Front(groups) + [Last(groups) + [line]])
  {
    hide IsHeader;
    var n := |groups| - 1;
    var extended := Front(groups) + [groups[n] + [line]];
    forall i, k | 0 <= i < |extended| && 0 <= k < |extended[i]|
      ensures IsHeader(extended[i][k]) <==> i >= 1 && k == 0
    {
      if k < |groups[i]| {
        assert extended[i][k] == groups[i][k];
      }
    }
  }

  lemma TogetherExtends(front: seq<seq<string>>, last: seq<string>, line: string)
    ensures Flatten(front + [last + [line]]) == Flatten(front + [last]) + [line]
  {
    assert (front + [last])[..|front|] == front && (front + [last + [line]])[..|front|] == front;
    Regroup(Flatten(front), last, [line]);
  }

  lemma {:induction false} GroupsOpenAtHeaders(lines: seq<string>)
    ensures HeadersOpen(Groups(lines))
  {
    if lines != [] {
      var n := |lines| - 1;
      GroupsOpenAtHeaders(lines[..n]);
      hide IsHeader, HeadersOpen;
      if IsHeader(lines[n]) {
        HeaderOpens(Groups(lines[..n]), lines[n]);
      } else {
        LineExtends(Groups(lines[..n]), lines[n]);
      }
    }
  }

  lemma {:induction false} GroupsHoldLines(lines: seq<string>)
    ensures Flatten(Groups(lines)) == lines
  {
    if lines == [] {
      var none: seq<seq<string>> := [[]];
      assert none[..0] == [];
    } else {
      hide IsHeader, Flatten, Front, Last;
      var n := |lines| - 1;
      assert lines == lines[..n] + [lines[n]];
      GroupsHoldLines(lines[..n]);
      var g, line := Groups(lines[..n]), lines[n];
      if IsHeader(line) {
        TogetherOneMore(g, line);
      } else {
        TogetherExtends(Front(g), Last(g), line);
        FrontAndLast(g);
      }
    }
  }

  lemma TogetherOneMore(groups: seq<seq<string>>, line: string)
    ensures Flatten(groups + [[line]]) == Flatten(groups) + [line]
  {
    assert (groups + [[line]])[..|groups|] == groups;
  }

  /** The groups hold all lines in order, cut exactly before the headers. */
  lemma GroupsCutAtHeaders(lines: seq<string>)
    ensures HeadersOpen(Groups(lines)) && Flatten(Groups(lines)) == lines
  {
    GroupsOpenAtHeaders(lines);
    GroupsHoldLines(lines);
  }
}
