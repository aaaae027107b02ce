/** Paginated export: a compound (ts, id) cursor walks the table page by page while other clients
    insert, delete and edit metas between the pages. */
module Export {
  import opened Engrams
  import opened StoreCounters
  import opened Collections

  /** ORDER BY ts ASC, id ASC. */
  predicate Before(ts: int, id: int, e: Engram) {
    ts < e.ts || (ts == e.ts && id < e.id)
  }

  ghost predicate InOrder(es: seq<Engram>) {
    forall i, j | 0 <= i < j < |es| :: Before(es[i].ts, es[i].id, es[j])
  }

  predicate InScope(e: Engram, surface: string, before: int) {
    (surface != "" ==> e.surface == surface) && (before > 0 ==> e.ts < before)
  }

  /** The WHERE clause: the cursor only filters once one of its parts is positive. */
  function Selected(rows: Rows, surface: string, cursorTS: int, cursorID: int, before: int): set<int> {
    set id | id in rows && InScope(rows[id], surface, before)
             && (cursorTS > 0 || cursorID > 0 ==> Before(cursorTS, cursorID, rows[id]))
  }

  /** The first `limit` selected rows in order. */
  ghost predicate IsPage(rows: Rows, selected: set<int>, limit: nat, page: seq<Engram>) {
    && |page| <= limit
    && InOrder(page)
    && (forall e | e in page :: e.id in selected && e.id in rows && rows[e.id] == e)
    && (forall id | id in selected && id in rows ::
          rows[id] in page || (|page| == limit && forall e | e in page :: Before(e.ts, e.id, rows[id])))
  }

  function ClampedLimit(limit: int): nat {
    if limit <= 0 then 50 else if limit > 5000 then 5000 else limit
  }

  method FirstOf(rows: Rows, ids: set<int>) returns (first: int)
    requires Numbered(rows) && |ids| > 0 && ids <= rows.Keys
    ensures first in ids
    ensures forall id | id in ids && id != first :: Before(rows[first].ts, first, rows[id])
  {
    ghost var some := Pick(ids);
    var id0 :| id0 in ids;
    first := id0;
    var rest := ids - {id0};
    while |rest| > 0
      invariant first in ids && rest <= ids && first !in rest
      invariant forall id | id in ids - rest && id != first :: Before(rows[first].ts, first, rows[id])
      decreases |rest|
    {
      ghost var other := Pick(rest);
      var id :| id in rest;
      if Before(rows[id].ts, id, rows[first]) {
        first := id;
      }
      rest := rest - {id};
    }
  }

  method RetrieveAfter(rows: Rows, surface: string, cursorTS: int, cursorID: int, before: int, limit: int)
    returns (page: seq<Engram>)
    requires Numbered(rows)
    ensures IsPage(rows, Selected(rows, surface, cursorTS, cursorID, before), ClampedLimit(limit), page)
    ensures |page| <= if limit <= 0 then 50 else if limit > 5000 then 5000 else limit
  {
    var selected := Selected(rows, surface, cursorTS, cursorID, before);
    var rest := selected;
    page := [];
    while |rest| > 0 && |page| < ClampedLimit(limit)
      invariant rest <= selected && |page| <= ClampedLimit(limit)
      invariant InOrder(page)
      invariant forall e | e in page :: e.id in selected - rest && rows[e.id] == e
      invariant forall id | id in selected - rest :: rows[id] in page
      invariant forall id, e | id in rest && e in page :: Before(e.ts, e.id, rows[id])
      decreases |rest|
    {
      var id := FirstOf(rows, rest);
      page := page + [rows[id]];
      rest := rest - {id};
    }
  }

  const PAGE_SIZE: nat := 1000

  /** What the k-th query of an export reads: the tables given, then the last of them for ever. */
  function TableAt(tables: seq<Rows>, k: nat): Rows
    requires tables != []
  {
    if k < |tables| then tables[k] else tables[|tables| - 1]
  }

  ghost predicate Matches(e: Engram, surface: string, since: int, before: int) {
    && (surface == "" || e.surface == surface)
    && (since <= 0 || e.ts >= since)
    && (before <= 0 || e.ts < before)
  }

  /** A row that is there, unchanged in key and still matching, whenever a page is read. */
  ghost predicate Stays(tables: seq<Rows>, ts: int, id: int, surface: string, since: int, before: int) {
    forall k | 0 <= k < |tables| ::
      && id in tables[k] && tables[k][id].ts == ts
      && (surface == "" || tables[k][id].surface == surface)
      && (since <= 0 || ts >= since)
      && (before <= 0 || ts < before)
  }

  ghost predicate Exported(out: seq<Engram>, ts: int, id: int) {
    exists e :: e in out && e.ts == ts && e.id == id
  }

  /** Where the cursor stands: at its start, or on the last row exported. */
  ghost predicate CursorAt(out: seq<Engram>, since: int, cursorTS: int, cursorID: int) {
    if out == [] then cursorTS == since && cursorID == 0
    else cursorTS == out[|out| - 1].ts && cursorID == out[|out| - 1].id && cursorID > 0 && (since > 0 ==> cursorTS >= since)
  }

  /** Everything that stays and is not behind the cursor has been exported. */
  ghost predicate CaughtUp(tables: seq<Rows>, out: seq<Engram>, surface: string, since: int, before: int,
                           cursorTS: int, cursorID: int) {
    forall ts, id | Stays(tables, ts, id, surface, since, before) ::
      Exported(out, ts, id) ||
      (cursorTS > 0 || cursorID > 0 ==> cursorTS < ts || (cursorTS == ts && cursorID < id))
  }

  ghost predicate FromTables(tables: seq<Rows>, out: seq<Engram>, surface: string, since: int, before: int) {
    forall e | e in out :: Matches(e, surface, since, before) && exists k | 0 <= k < |tables| ::
      e.id in tables[k] && tables[k][e.id] == e
  }

  /** Every row was in the table its page was read from, as it was exported: page k is from query k. */
  ghost predicate ReadPageByPage(tables: seq<Rows>, pages: seq<seq<Engram>>)
    requires tables != []
  {
    forall k, e | 0 <= k < |pages| && e in pages[k] :: e.id in TableAt(tables, k) && TableAt(tables, k)[e.id] == e
  }

  /** Everything that stays has been exported. */
  ghost predicate NothingMissed(tables: seq<Rows>, out: seq<Engram>, surface: string, since: int, before: int) {
    forall ts, id | Stays(tables, ts, id, surface, since, before) :: Exported(out, ts, id)
  }

  /** Where an export stands after these pages. */
  ghost predicate Walked(tables: seq<Rows>, pages: seq<seq<Engram>>, out: seq<Engram>, surface: string,
                         since: int, before: int, cursorTS: int, cursorID: int)
    requires tables != []
  {
    && out == Flatten(pages) && ReadPageByPage(tables, pages)
    && (forall page | page in pages :: 0 < |page| <= PAGE_SIZE)
    && InOrder(out) && FromTables(tables, out, surface, since, before)
    && CursorAt(out, since, cursorTS, cursorID)
    && CaughtUp(tables, out, surface, since, before, cursorTS, cursorID)
  }

  lemma PageFollows(rows: Rows, out: seq<Engram>, page: seq<Engram>, surface: string, since: int, before: int,
                    cursorTS: int, cursorID: int, limit: nat)
    requires Numbered(rows) && InOrder(out) && CursorAt(out, since, cursorTS, cursorID)
    requires IsPage(rows, Selected(rows, surface, cursorTS, cursorID, before), limit, page)
    ensures InOrder(out + page)
    ensures forall e | e in page :: Matches(e, surface, since, before) && e.id > 0
    ensures page != [] ==> CursorAt(out + page, since, page[|page| - 1].ts, page[|page| - 1].id)
  {
    forall e | e in page ensures out != [] ==> Before(cursorTS, cursorID, e) {
      assert e.id in Selected(rows, surface, cursorTS, cursorID, before);
    }
    forall e | e in page ensures Matches(e, surface, since, before) && e.id > 0 {
      assert e.id in Selected(rows, surface, cursorTS, cursorID, before);
    }
    if page != [] {
      assert page[|page| - 1] in page;
    }
    var all := out + page;
    forall i, j | 0 <= i < j < |all| ensures Before(all[i].ts, all[i].id, all[j]) {
      if i < |out| <= j {
        assert page[j - |out|] in page;
        assert i < |out| - 1 ==> Before(out[i].ts, out[i].id, out[|out| - 1]);
      }
    }
  }

  /** After a page, whatever stays is exported or still ahead; after a short page nothing is ahead. */
  lemma PageCatchesUp(tables: seq<Rows>, k: nat, out: seq<Engram>, page: seq<Engram>, surface: string,
                      since: int, before: int, cursorTS: int, cursorID: int)
    requires tables != [] && Numbered(TableAt(tables, k))
    requires CaughtUp(tables, out, surface, since, before, cursorTS, cursorID)
    requires IsPage(TableAt(tables, k), Selected(TableAt(tables, k), surface, cursorTS, cursorID, before), PAGE_SIZE, page)
    ensures page != [] ==>
              CaughtUp(tables, out + page, surface, since, before, page[|page| - 1].ts, page[|page| - 1].id)
    ensures |page| < PAGE_SIZE ==>
              NothingMissed(tables, out + page, surface, since, before)
  {
    var rows := TableAt(tables, k);
    var selected := Selected(rows, surface, cursorTS, cursorID, before);
    forall ts, id | Stays(tables, ts, id, surface, since, before)
      ensures Exported(out + page, ts, id) || |page| == PAGE_SIZE
      ensures Exported(out + page, ts, id)
           || (page != [] && Before(page[|page| - 1].ts, page[|page| - 1].id, rows[id])) || page == []
      ensures id in rows && rows[id].ts == ts
    {
      assert id in tables[if k < |tables| then k else |tables| - 1];
      if Exported(out, ts, id) {
        var e :| e in out && e.ts == ts && e.id == id;
        assert e in out + page;
      } else {
        assert id in selected;
        if rows[id] in page {
          assert rows[id] in out + page;
        } else if page != [] {
          assert page[|page| - 1] in page;
        }
      }
    }
  }

  lemma SelectedShrinks(rows: Rows, surface: string, before: int, cursorTS: int, cursorID: int, page: seq<Engram>)
    requires Numbered(rows) && page != []
    requires IsPage(rows, Selected(rows, surface, cursorTS, cursorID, before), PAGE_SIZE, page)
    ensures Selected(rows, surface, page[|page| - 1].ts, page[|page| - 1].id, before)
          < Selected(rows, surface, cursorTS, cursorID, before)
  {
    var last := page[|page| - 1];
    assert last in page;
    var was, now := Selected(rows, surface, cursorTS, cursorID, before), Selected(rows, surface, last.ts, last.id, before);
    assert last.id in was && last.id !in now;
    forall id | id in now ensures id in was {
      assert Before(last.ts, last.id, rows[id]);
      assert cursorTS > 0 || cursorID > 0 ==> Before(cursorTS, cursorID, last);
    }
  }

  /** Between the pages anything may happen: `tables` lists what successive queries see. A failing query
      (at `faultAt`) ends the export without its completion line. */
  method HandleExport(tables: seq<Rows>, surface: string, since: int, before: int, faultAt: Option<nat>)
    returns (out: seq<Engram>, complete: bool, total: nat, ghost pages: seq<seq<Engram>>)
    requires tables != [] && forall t | t in tables :: Numbered(t)
    ensures forall e | e in out ::
              && (surface != "" ==> e.surface == surface)
              && (since > 0 ==> e.ts >= since)
              && (before > 0 ==> e.ts < before)
    ensures forall i, j | 0 <= i < j < |out| ::
              out[i].ts < out[j].ts || (out[i].ts == out[j].ts && out[i].id < out[j].id)
    ensures complete ==>
              forall ts, id | Stays(tables, ts, id, surface, since, before) ::
                exists e :: e in out && e.ts == ts && e.id == id
    ensures InOrder(out)
    ensures FromTables(tables, out, surface, since, before)
    ensures out == Flatten(pages) && ReadPageByPage(tables, pages)
    ensures total == |out|
    ensures complete ==> NothingMissed(tables, out, surface, since, before)
    ensures complete && |tables| == 1 ==> IsExact(tables[0], out, surface, since, before)
    ensures faultAt == None ==> complete
  {
    hide Selected, IsPage, Walked, InOrder, FromTables, Flatten, ReadPageByPage, NothingMissed, IsExact;
    var cursorTS, cursorID := since, 0;
    out, total, complete := [], 0, false;
    var k := 0;
    pages := [];
    WalkStarts(tables, surface, since, before);
    while true
      invariant |pages| == k && total == |out|
      invariant Walked(tables, pages, out, surface, since, before, cursorTS, cursorID)
      decreases if k < |tables| then |tables| - k else 0,
                Selected(TableAt(tables, k), surface, cursorTS, cursorID, before)
    {
      WalkMeans(tables, pages, out, surface, since, before, cursorTS, cursorID);
      if faultAt == Some(k) {
        return;
      }
      var rows := RetrieveAfter(TableAt(tables, k), surface, cursorTS, cursorID, before, PAGE_SIZE);
      WalkPage(tables, pages, out, rows, surface, since, before, cursorTS, cursorID);
      if |rows| == 0 {
        break;
      }
      pages := pages + [rows];
      out := out + rows;
      total := total + |rows|;
      var last := rows[|rows| - 1];
      cursorTS := last.ts;
      cursorID := last.id;
      WalkMeans(tables, pages, out, surface, since, before, cursorTS, cursorID);
      if |rows| < PAGE_SIZE {
        break;
      }
      k := k + 1;
    }
    complete := true;
    MissedMeans(tables, out, surface, since, before);
    if |tables| == 1 {
      assert tables == [tables[0]];
      QuietExportIsExact(tables[0], out, surface, since, before);
    }
  }

  lemma WalkStarts(tables: seq<Rows>, surface: string, since: int, before: int)
    requires tables != [] && forall t | t in tables :: Numbered(t)
    ensures Walked(tables, [], [], surface, since, before, since, 0)
  {
    StartIsCaughtUp(tables, surface, since, before);
  }

  lemma WalkMeans(tables: seq<Rows>, pages: seq<seq<Engram>>, out: seq<Engram>, surface: string,
                  since: int, before: int, cursorTS: int, cursorID: int)
    requires tables != [] && Walked(tables, pages, out, surface, since, before, cursorTS, cursorID)
    ensures out == Flatten(pages) && ReadPageByPage(tables, pages)
    ensures InOrder(out) && FromTables(tables, out, surface, since, before)
    ensures forall e | e in out ::
              && (surface != "" ==> e.surface == surface)
              && (since > 0 ==> e.ts >= since)
              && (before > 0 ==> e.ts < before)
    ensures forall i, j | 0 <= i < j < |out| ::
              out[i].ts < out[j].ts || (out[i].ts == out[j].ts && out[i].id < out[j].id)
  {
  }

  lemma MissedMeans(tables: seq<Rows>, out: seq<Engram>, surface: string, since: int, before: int)
    requires NothingMissed(tables, out, surface, since, before)
    ensures forall ts, id | Stays(tables, ts, id, surface, since, before) ::
              exists e :: e in out && e.ts == ts && e.id == id
  {
    forall ts, id | Stays(tables, ts, id, surface, since, before)
      ensures exists e :: e in out && e.ts == ts && e.id == id
    {
      assert Exported(out, ts, id);
    }
  }

  /** One page further; a short page is the end. */
  lemma WalkPage(tables: seq<Rows>, pages: seq<seq<Engram>>, out: seq<Engram>, page: seq<Engram>, surface: string,
                 since: int, before: int, cursorTS: int, cursorID: int)
    requires tables != [] && (forall t | t in tables :: Numbered(t))
    requires Walked(tables, pages, out, surface, since, before, cursorTS, cursorID)
    requires var rows := TableAt(tables, |pages|);
             IsPage(rows, Selected(rows, surface, cursorTS, cursorID, before), PAGE_SIZE, page)
    ensures page != [] ==>
              var last := page[|page| - 1]; var rows := TableAt(tables, |pages|);
              && Walked(tables, pages + [page], out + page, surface, since, before, last.ts, last.id)
              && Selected(rows, surface, last.ts, last.id, before) < Selected(rows, surface, cursorTS, cursorID, before)
    ensures page == [] ==> out + page == out
    ensures |page| < PAGE_SIZE ==> NothingMissed(tables, out + page, surface, since, before)
  {
    hide Selected, IsPage, InOrder, FromTables, Flatten, ReadPageByPage, NothingMissed, CaughtUp, CursorAt;
    var k := |pages|;
    var rows := TableAt(tables, k);
    PageFollows(rows, out, page, surface, since, before, cursorTS, cursorID, PAGE_SIZE);
    PageCatchesUp(tables, k, out, page, surface, since, before, cursorTS, cursorID);
    OnePageMore(tables, pages, page, surface, before, cursorTS, cursorID);
    PageIsFromTables(tables, k, out, page, surface, since, before, cursorTS, cursorID);
    if page != [] {
      SelectedShrinks(rows, surface, before, cursorTS, cursorID, page);
    }
  }

  lemma StartIsCaughtUp(tables: seq<Rows>, surface: string, since: int, before: int)
    requires tables != [] && forall t | t in tables :: Numbered(t)
    ensures CaughtUp(tables, [], surface, since, before, since, 0)
  {
    forall ts, id | Stays(tables, ts, id, surface, since, before) && since > 0
      ensures since < ts || (since == ts && 0 < id)
    {
      assert id in tables[0] && tables[0] in tables;
    }
  }

  lemma OnePageMore(tables: seq<Rows>, pages: seq<seq<Engram>>, page: seq<Engram>, surface: string, before: int,
                    cursorTS: int, cursorID: int)
    requires tables != [] && ReadPageByPage(tables, pages)
    requires var rows := TableAt(tables, |pages|);
             IsPage(rows, Selected(rows, surface, cursorTS, cursorID, before), PAGE_SIZE, page)
    ensures ReadPageByPage(tables, pages + [page])
    ensures Flatten(pages + [page]) == Flatten(pages) + page
    ensures |page| <= PAGE_SIZE
  {
    var rows := TableAt(tables, |pages|);
    forall e | e in page ensures e.id in rows && rows[e.id] == e {
    }
    hide IsPage, Selected;
    assert (pages + [page])[..|pages|] == pages;
  }

  lemma PageIsFromTables(tables: seq<Rows>, k: nat, out: seq<Engram>, page: seq<Engram>, surface: string,
                         since: int, before: int, cursorTS: int, cursorID: int)
    requires tables != [] && FromTables(tables, out, surface, since, before)
    requires IsPage(TableAt(tables, k), Selected(TableAt(tables, k), surface, cursorTS, cursorID, before), PAGE_SIZE, page)
    requires forall e | e in page :: Matches(e, surface, since, before)
    ensures FromTables(tables, out + page, surface, since, before)
  {
    var i := if k < |tables| then k else |tables| - 1;
    forall e | e in page ensures exists j | 0 <= j < |tables| :: e.id in tables[j] && tables[j][e.id] == e {
      assert e.id in tables[i] && tables[i][e.id] == e;
    }
  }

  /** Exactly the matching rows, and as many. */
  ghost predicate IsExact(rows: Rows, out: seq<Engram>, surface: string, since: int, before: int) {
    && (forall e :: e in out <==> e in rows.Values && Matches(e, surface, since, before))
    && |out| == |set id | id in rows && Matches(rows[id], surface, since, before)|
  }

  /** On a quiet store the export is exactly the matching rows, each once, in (ts, id) order. */
  lemma QuietExportIsExact(rows: Rows, out: seq<Engram>, surface: string, since: int, before: int)
    requires Numbered(rows) && InOrder(out) && FromTables([rows], out, surface, since, before)
    requires NothingMissed([rows], out, surface, since, before)
    ensures IsExact(rows, out, surface, since, before)
  {
    forall e | e in rows.Values && Matches(e, surface, since, before) ensures e in out {
      var id := KeyOf(rows, e);
      assert Stays([rows], e.ts, id, surface, since, before);
      assert Exported(out, e.ts, id);
      var d :| d in out && d.ts == e.ts && d.id == id;
      assert d.id in [rows][0] && rows[d.id] == d;
    }
    var ids := set id | id in rows && Matches(rows[id], surface, since, before);
    var keys := seq(|out|, i requires 0 <= i < |out| => out[i].id);
    forall e | e in out ensures e.id in rows && rows[e.id] == e {
      var k :| 0 <= k < |[rows]| && e.id in [rows][k] && [rows][k][e.id] == e;
    }
    forall i, j | 0 <= i < j < |keys| ensures keys[i] != keys[j] {
      assert out[i] in out && out[j] in out;
    }
    forall k ensures k in keys <==> k in ids {
      if k in ids {
        assert rows[k] in rows.Values && rows[k] in out;
        var i :| 0 <= i < |out| && out[i] == rows[k];
        assert keys[i] == k;
      }
      if k in keys {
        var i :| 0 <= i < |keys| && keys[i] == k;
        assert out[i] in out;
      }
    }
    DistinctCount(keys, ids);
  }
}
