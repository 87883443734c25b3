/** The LP-award query pages by a composite (blockTimestamp, id) cursor. */
module LpAwards {
  import opened Wrappers
  import opened Keys
  import opened Pagination

  const PAGE_SIZE: nat := 1000
  const MAX_PAGES: nat := 100

  /** `complete` is false when the response omits the row's id or timestamp. */
  datatype Award = Award(timestamp: nat, id: Key, taker: string, kicker: string, complete: bool)

  /** The server orders events by timestamp and breaks ties by id. */
  ghost predicate EventTable(d: seq<Row<Award>>) {
    && Table(d)
    && forall i :: 0 <= i < |d| ==> d[i].key == [d[i].payload.timestamp] + d[i].payload.id && d[i].payload.id != []
  }

  ghost predicate EventTables(tables: nat -> Option<seq<Row<Award>>>) {
    forall p: nat :: tables(p).Some? ==> EventTable(tables(p).value)
  }

  /** The four branches of the query's `or`. */
  predicate Where(signer: string, cursorTs: nat, cursorId: Key, a: Award) {
    || (a.taker == signer && a.timestamp > cursorTs)
    || (a.taker == signer && a.timestamp == cursorTs && Less(cursorId, a.id))
    || (a.kicker == signer && a.timestamp > cursorTs)
    || (a.kicker == signer && a.timestamp == cursorTs && Less(cursorId, a.id))
  }

  function Select(d: seq<Row<Award>>, signer: string, cursorTs: nat, cursorId: Key): (r: seq<Row<Award>>) {
    if d == [] then []
    else (if Where(signer, cursorTs, cursorId, d[0].payload) then [d[0]] else [])
         + Select(d[1..], signer, cursorTs, cursorId)
  }

  function SelectPage(d: seq<Row<Award>>, signer: string, cursorTs: nat, cursorId: Key): (r: seq<Row<Award>>)
    ensures |r| <= PAGE_SIZE
  {
    var rows := Select(d, signer, cursorTs, cursorId);
    if |rows| <= PAGE_SIZE then rows else rows[..PAGE_SIZE]
  }

  /** The events that concern the signer, as taker or as kicker. */
  function Relevant(d: seq<Row<Award>>, signer: string): (r: seq<Row<Award>>)
    ensures forall row :: row in r <==> row in d && (row.payload.taker == signer || row.payload.kicker == signer)
  {
    if d == [] then []
    else (if d[0].payload.taker == signer || d[0].payload.kicker == signer then [d[0]] else [])
         + Relevant(d[1..], signer)
  }

  function RelevantTables(tables: nat -> Option<seq<Row<Award>>>, signer: string): nat -> Option<seq<Row<Award>>> {
    (p: nat) => if tables(p).Some? then Some(Relevant(tables(p).value, signer)) else None
  }

  function AwardCursor(row: Row<Award>): Key {
    if row.payload.complete then [row.payload.timestamp] + row.payload.id else []
  }

  lemma PrependKeepsTable(row: Row<Award>, tail: seq<Row<Award>>)
    requires EventTable(tail)
    requires row.key == [row.payload.timestamp] + row.payload.id && row.payload.id != []
    requires forall i :: 0 <= i < |tail| ==> Less(row.key, tail[i].key)
    ensures EventTable([row] + tail)
  {
  }

  lemma {:induction false} RelevantIsTable(d: seq<Row<Award>>, signer: string)
    requires EventTable(d)
    ensures EventTable(Relevant(d, signer))
  {
    if d != [] {
      var tail := Relevant(d[1..], signer);
      RelevantIsTable(d[1..], signer);
      if d[0].payload.taker == signer || d[0].payload.kicker == signer {
        forall i | 0 <= i < |tail| ensures Less(d[0].key, tail[i].key) {
          assert tail[i] in d[1..];
        }
        PrependKeepsTable(d[0], tail);
      } else {
        assert Relevant(d, signer) == tail;
      }
    }
  }

  /** The composite query is the single-key query on keys (timestamp, id). */
  lemma {:induction false} SelectIsAfter(d: seq<Row<Award>>, signer: string, cursorTs: nat, cursorId: Key)
    requires EventTable(d)
    ensures Select(d, signer, cursorTs, cursorId) == After(Relevant(d, signer), [cursorTs] + cursorId)
  {
    if d != [] {
      SelectIsAfter(d[1..], signer, cursorTs, cursorId);
      PairOrder(cursorTs, cursorId, d[0].payload.timestamp, d[0].payload.id);
      var tail := Relevant(d[1..], signer);
      if d[0].payload.taker == signer || d[0].payload.kicker == signer {
        assert ([d[0]] + tail)[1..] == tail;
        assert Relevant(d, signer) == [d[0]] + tail;
      } else {
        assert Relevant(d, signer) == tail;
      }
    }
  }

  /** The empty id precedes every real one, so the first page starts with the
      anchor timestamp itself. */
  lemma SentinelIncludesTheAnchor(anchor: nat, timestamp: nat, id: Key)
    requires id != []
    ensures Less([anchor], [timestamp] + id) <==> timestamp >= anchor
  {
    PairOrder(anchor, [], timestamp, id);
    assert [anchor] + [] == [anchor];
  }

  /** One request of the composite query. */
  method FetchPage(d: seq<Row<Award>>, signer: string, cursorTs: nat, cursorId: Key)
    returns (pageItems: seq<Row<Award>>)
    requires EventTable(d)
    ensures pageItems == Page(Relevant(d, signer), [cursorTs] + cursorId, PAGE_SIZE)
  {
    SelectIsAfter(d, signer, cursorTs, cursorId);
    pageItems := SelectPage(d, signer, cursorTs, cursorId);
  }

  /** A full page that ends with a complete event: the loop goes on after it. */
  lemma FullPageGoesOn(
      relevant: nat -> Option<seq<Row<Award>>>, page: nat, cursor: Key, items: seq<Row<Award>>, warned: bool,
      pageItems: seq<Row<Award>>, next: Key, warned': bool)
    requires page < MAX_PAGES && relevant(page).Some? && pageItems == Page(relevant(page).value, cursor, PAGE_SIZE)
    requires |pageItems| == PAGE_SIZE && next == AwardCursor(pageItems[PAGE_SIZE - 1]) != []
    requires warned' == (warned || page == MAX_PAGES - 1)
    ensures Walk(relevant, AwardCursor, PAGE_SIZE, MAX_PAGES, page, cursor, items, warned)
         == Walk(relevant, AwardCursor, PAGE_SIZE, MAX_PAGES, page + 1, next, items + pageItems, warned')
  {
  }

  method GetBucketTakeLPAwards(signer: string, anchor: nat, tables: nat -> Option<seq<Row<Award>>>)
    returns (r: Outcome<Award>)
    requires EventTables(tables)
    ensures r == Walk(RelevantTables(tables, signer), AwardCursor, PAGE_SIZE, MAX_PAGES, 0, [anchor], [], false)
  {
    var bucketTakes: seq<Row<Award>> := [];
    var pageTs, pageId: Key := anchor, [];
    var warned := false;
    ghost var relevant := RelevantTables(tables, signer);
    ghost var whole := Walk(relevant, AwardCursor, PAGE_SIZE, MAX_PAGES, 0, [anchor], [], false);
    assert [anchor] + [] == [anchor];
    for page := 0 to MAX_PAGES
      invariant whole == Walk(
                           relevant, AwardCursor, PAGE_SIZE, MAX_PAGES, page, [pageTs] + pageId, bucketTakes, warned)
    {
      if tables(page).None? {
        return Thrown(page);
      }
      var pageItems := FetchPage(tables(page).value, signer, pageTs, pageId);
      ghost var before, warnedBefore := bucketTakes, warned;
      bucketTakes := bucketTakes + pageItems;
      if page == MAX_PAGES - 1 && |pageItems| == PAGE_SIZE {
        warned := true;
      }
      if |pageItems| < PAGE_SIZE {
        return Fetched(bucketTakes, ShortPage, page + 1, warned);
      }
      var lastItem := pageItems[|pageItems| - 1].payload;
      if !lastItem.complete {
        return Fetched(bucketTakes, MissingCursor, page + 1, warned);
      }
      FullPageGoesOn(relevant, page, [pageTs] + pageId, before, warnedBefore, pageItems,
                     [lastItem.timestamp] + lastItem.id, warned);
      pageTs := lastItem.timestamp;
      pageId := lastItem.id;
    }
    return Fetched(bucketTakes, PageCap, MAX_PAGES, warned);
  }

  /** While events come and go between pages: the result is in (timestamp, id)
      order without duplicates, holds only the signer's events from the anchor
      on, and misses none that was there throughout, up to the page cap or an
      event without id. */
  lemma AwardsAreTrustworthy(signer: string, anchor: nat, tables: nat -> Option<seq<Row<Award>>>)
    requires EventTables(tables)
    ensures var r := Walk(RelevantTables(tables, signer), AwardCursor, PAGE_SIZE, MAX_PAGES, 0, [anchor], [], false);
            && Trustworthy(RelevantTables(tables, signer), AwardCursor, [anchor], MAX_PAGES, r)
            && (r.Fetched? ==> Ascending(r.items) && forall i :: 0 <= i < |r.items| ==>
                  && r.items[i].payload.timestamp >= anchor
                  && (r.items[i].payload.taker == signer || r.items[i].payload.kicker == signer))
  {
    var relevant := RelevantTables(tables, signer);
    forall p: nat | relevant(p).Some? ensures EventTable(relevant(p).value) {
      RelevantIsTable(tables(p).value, signer);
    }
    forall p: nat, row | relevant(p).Some? && row in relevant(p).value
      ensures AwardCursor(row) == row.key || AwardCursor(row) == []
    {
    }
    var r := Walk(relevant, AwardCursor, PAGE_SIZE, MAX_PAGES, 0, [anchor], [], false);
    WalkIsTrustworthy(relevant, AwardCursor, [anchor], PAGE_SIZE, MAX_PAGES, 0, [], false, r);
    if r.Fetched? {
      forall i | 0 <= i < |r.items|
        ensures r.items[i].payload.timestamp >= anchor
                && (r.items[i].payload.taker == signer || r.items[i].payload.kicker == signer)
      {
        assert Less([anchor], r.items[i].key) && Served(relevant, r.pages, r.items[i]);
        var p: nat :| p < r.pages && relevant(p).Some? && r.items[i] in relevant(p).value;
        assert r.items[i] in tables(p).value;
        SentinelIncludesTheAnchor(anchor, r.items[i].payload.timestamp, r.items[i].payload.id);
      }
    }
  }

  /** An award query that fails on some page throws, and one that returns has had
      every page answered: it ends with a page that is not full, or whose last event
      lacks its id or timestamp, or at the cap with a warning. */
  lemma AwardRequestsAreAccounted(signer: string, anchor: nat, tables: nat -> Option<seq<Row<Award>>>)
    ensures var r := Walk(RelevantTables(tables, signer), AwardCursor, PAGE_SIZE, MAX_PAGES, 0, [anchor], [], false);
            && (r.Thrown? ==> tables(r.page).None? && forall p: nat :: p < r.page ==> tables(p).Some?)
            && (r.Fetched? ==>
                  && (forall p: nat :: p < r.pages ==> tables(p).Some?) && (r.stop == PageCap ==> r.warnedTruncated)
                  && (r.stop == ShortPage ==> |r.items| < Capacity(r.pages, PAGE_SIZE))
                  && (r.stop == MissingCursor ==> r.items != [] && !r.items[|r.items| - 1].payload.complete)
                  && (forall k: nat :: 0 < k < r.pages ==> EndsComplete(r.items, k)))
  {
    var relevant := RelevantTables(tables, signer);
    var r := Walk(relevant, AwardCursor, PAGE_SIZE, MAX_PAGES, 0, [anchor], [], false);
    WalkIsAccounted(relevant, AwardCursor, PAGE_SIZE, MAX_PAGES, 0, [anchor], [], false);
    assert forall p: nat :: relevant(p).Some? <==> tables(p).Some?;
    if r.Fetched? {
      forall k: nat | 0 < k < r.pages ensures EndsComplete(r.items, k) {
        CursorsComeFromCompleteEvents(r.items, k);
      }
    }
  }

  /** The last event of the first k pages has its id and timestamp. */
  predicate EndsComplete(items: seq<Row<Award>>, k: nat) {
    var n := Capacity(k, PAGE_SIZE);
    0 < n <= |items| && items[n - 1].payload.complete
  }

  lemma CursorsComeFromCompleteEvents(items: seq<Row<Award>>, k: nat)
    requires GoesOn(AwardCursor, PAGE_SIZE, items, k)
    ensures EndsComplete(items, k)
  {
  }

  /** On an unchanging table: exactly the signer's events from the anchor on, in
      order, even where one timestamp fills several pages; all of them unless
      there are more than the cap, and then with a warning. */
  lemma AwardsOfAFixedTable(signer: string, anchor: nat, tables: nat -> Option<seq<Row<Award>>>, d: seq<Row<Award>>)
    requires EventTable(d) && (forall p: nat :: p < MAX_PAGES ==> tables(p) == Some(d))
    requires forall i :: 0 <= i < |d| ==> d[i].payload.complete
    ensures var r := Walk(RelevantTables(tables, signer), AwardCursor, PAGE_SIZE, MAX_PAGES, 0, [anchor], [], false);
            var all := Select(d, signer, anchor, []);
            && r.Fetched?
            && r.items == all[..Min(|all|, PAGE_SIZE * MAX_PAGES)]
            && (|r.items| < |all| ==> r.warnedTruncated)
  {
    var relevant := Relevant(d, signer);
    var tables' := RelevantTables(tables, signer);
    RelevantIsTable(d, signer);
    SelectIsAfter(d, signer, anchor, []);
    assert [anchor] + [] == [anchor];
    UnchangingRelevant(signer, tables, d);
    FixedTableIsReadUpToTheCap(tables', AwardCursor, relevant, [anchor], PAGE_SIZE, MAX_PAGES,
                               Walk(tables', AwardCursor, PAGE_SIZE, MAX_PAGES, 0, [anchor], [], false));
  }

  lemma UnchangingRelevant(signer: string, tables: nat -> Option<seq<Row<Award>>>, d: seq<Row<Award>>)
    requires EventTable(d) && (forall p: nat :: p < MAX_PAGES ==> tables(p) == Some(d))
    requires forall i :: 0 <= i < |d| ==> d[i].payload.complete
    ensures Unchanging(RelevantTables(tables, signer), AwardCursor, Relevant(d, signer), MAX_PAGES)
  {
  }
}
