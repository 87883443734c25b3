/** Keyset pagination against a server whose data may change between two page
    fetches: the single-key loop shared by the discovery queries and the
    (timestamp, id) loop of the LP-award query. */
module Pagination {
  import opened Wrappers
  import opened Keys

  /** A row as the server stores it: `key` is the column the query orders by,
      `payload` the rest. */
  datatype Row<T> = Row(key: Key, payload: T)

  /** The server's table at one moment: unique non-empty keys, in order. */
  ghost predicate Table<T>(d: seq<Row<T>>) {
    && Ascending(d)
    && forall i :: 0 <= i < |d| ==> d[i].key != []
  }

  ghost predicate Ascending<T>(d: seq<Row<T>>) {
    forall i, j :: 0 <= i < j < |d| ==> Less(d[i].key, d[j].key)
  }

  ghost predicate HasKey<T>(d: seq<Row<T>>, k: Key) {
    exists i :: 0 <= i < |d| && d[i].key == k
  }

  /** `where: { key_gt: cursor }` */
  function After<T>(d: seq<Row<T>>, cursor: Key): (r: seq<Row<T>>) {
    if d == [] then []
    else if Less(cursor, d[0].key) then [d[0]] + After(d[1..], cursor)
    else After(d[1..], cursor)
  }

  /** `first: size` of the rows after the cursor. */
  function Page<T>(d: seq<Row<T>>, cursor: Key, size: nat): (r: seq<Row<T>>)
    ensures |r| <= size
  {
    var rows := After(d, cursor);
    if |rows| <= size then rows else rows[..size]
  }

  lemma {:induction false} AfterSkips<T>(d: seq<Row<T>>, cursor: Key, n: nat)
    requires Ascending(d) && n <= |d|
    requires forall i :: 0 <= i < n ==> !Less(cursor, d[i].key)
    requires forall i :: n <= i < |d| ==> Less(cursor, d[i].key)
    ensures After(d, cursor) == d[n..]
  {
    if d != [] {
      if n > 0 {
        AfterSkips(d[1..], cursor, n - 1);
        assert d[n..] == d[1..][n - 1..];
      } else {
        AfterSkips(d[1..], cursor, 0);
        assert d == [d[0]] + d[1..];
      }
    }
  }

  /** In an ordered table the rows after a cursor are a suffix. */
  lemma {:induction false} AfterIsSuffix<T>(d: seq<Row<T>>, cursor: Key) returns (n: nat)
    requires Ascending(d)
    ensures n <= |d| && After(d, cursor) == d[n..]
    ensures forall i :: 0 <= i < n ==> !Less(cursor, d[i].key)
    ensures forall i :: n <= i < |d| ==> Less(cursor, d[i].key)
  {
    n := 0;
    while n < |d| && !Less(cursor, d[n].key)
      invariant n <= |d|
      invariant forall i :: 0 <= i < n ==> !Less(cursor, d[i].key)
    {
      n := n + 1;
    }
    forall i | n <= i < |d| ensures Less(cursor, d[i].key) {
      if n < i {
        LessIsTransitive(cursor, d[n].key, d[i].key);
      }
    }
    AfterSkips(d, cursor, n);
  }

  // ------------------------------------------------------ what one page adds

  function LastKey<T>(start: Key, items: seq<Row<T>>): Key {
    if items == [] then start else items[|items| - 1].key
  }

  /** The table has a row with key k at every one of the first `pages` fetches. */
  ghost predicate Steady<T>(tables: nat -> Option<seq<Row<T>>>, pages: nat, k: Key) {
    forall p: nat :: p < pages ==> tables(p).Some? && HasKey(tables(p).value, k)
  }

  /** The row was on the server when one of the first `pages` pages was fetched. */
  ghost predicate Served<T>(tables: nat -> Option<seq<Row<T>>>, pages: nat, row: Row<T>) {
    exists p: nat :: p < pages && tables(p).Some? && row in tables(p).value
  }

  ghost predicate Tables<T>(tables: nat -> Option<seq<Row<T>>>) {
    forall p: nat :: tables(p).Some? ==> Table(tables(p).value)
  }

  /** Sound so far: in order, beyond `start`, and every row really served. */
  ghost predicate Sound<T>(tables: nat -> Option<seq<Row<T>>>, pages: nat, start: Key, items: seq<Row<T>>) {
    && Ascending(items)
    && (forall i :: 0 <= i < |items| ==> Less(start, items[i].key) && Served(tables, pages, items[i]))
  }

  /** Complete up to `cursor`: every steady key is in hand or still ahead. */
  ghost predicate Complete<T>(
      tables: nat -> Option<seq<Row<T>>>, pages: nat, start: Key, items: seq<Row<T>>, cursor: Key)
  {
    forall k :: Less(start, k) && Steady(tables, pages, k) ==> HasKey(items, k) || Less(cursor, k)
  }

  /** Nothing steady is missing at all. */
  ghost predicate Exhaustive<T>(tables: nat -> Option<seq<Row<T>>>, pages: nat, start: Key, items: seq<Row<T>>) {
    forall k :: Less(start, k) && Steady(tables, pages, k) ==> HasKey(items, k)
  }

  lemma PageIsOrdered<T>(d: seq<Row<T>>, cursor: Key, size: nat)
    requires Table(d)
    ensures var p := Page(d, cursor, size);
            Ascending(p) && forall i :: 0 <= i < |p| ==> Less(cursor, p[i].key) && p[i] in d
  {
    var n := AfterIsSuffix(d, cursor);
    assert forall i :: 0 <= i < |After(d, cursor)| ==> After(d, cursor)[i] == d[n + i];
  }

  lemma PageIsComplete<T>(d: seq<Row<T>>, cursor: Key, size: nat, k: Key)
    requires Table(d) && HasKey(d, k) && Less(cursor, k)
    ensures var p := Page(d, cursor, size);
            HasKey(p, k) || (|p| == size && (size > 0 ==> Less(p[size - 1].key, k)))
  {
    var n := AfterIsSuffix(d, cursor);
    var p := Page(d, cursor, size);
    var i :| 0 <= i < |d| && d[i].key == k;
    if i - n < |p| {
      assert p[i - n].key == k;
    }
  }

  lemma PageKeepsSound<T>(tables: nat -> Option<seq<Row<T>>>, pages: nat, start: Key, items: seq<Row<T>>, size: nat)
    requires Tables(tables) && tables(pages).Some? && Sound(tables, pages, start, items)
    ensures Sound(tables, pages + 1, start, items + Page(tables(pages).value, LastKey(start, items), size))
  {
    var cursor := LastKey(start, items);
    var p := Page(tables(pages).value, cursor, size);
    PageIsOrdered(tables(pages).value, cursor, size);
    forall i, j | 0 <= i < j < |items + p| ensures Less((items + p)[i].key, (items + p)[j].key) {
      if i < |items| <= j {
        if i < |items| - 1 {
          LessIsTransitive(items[i].key, cursor, p[j - |items|].key);
        }
      }
    }
    forall i | 0 <= i < |items + p|
      ensures Less(start, (items + p)[i].key) && Served(tables, pages + 1, (items + p)[i])
    {
      if i < |items| {
        var q: nat :| q < pages && tables(q).Some? && items[i] in tables(q).value;
      } else if items != [] {
        LessIsTransitive(start, cursor, p[i - |items|].key);
      }
    }
  }

  lemma PageKeepsComplete<T>(tables: nat -> Option<seq<Row<T>>>, pages: nat, start: Key, items: seq<Row<T>>, size: nat)
    requires Tables(tables) && tables(pages).Some? && Complete(tables, pages, start, items, LastKey(start, items))
    ensures var p := Page(tables(pages).value, LastKey(start, items), size);
            && (|p| < size ==> Exhaustive(tables, pages + 1, start, items + p))
            && (|p| == size > 0 ==> Complete(tables, pages + 1, start, items + p, LastKey(start, items + p)))
  {
    var cursor := LastKey(start, items);
    var p := Page(tables(pages).value, cursor, size);
    forall k | Less(start, k) && Steady(tables, pages + 1, k)
      ensures HasKey(items + p, k) || (|p| == size && (size > 0 ==> Less(LastKey(start, items + p), k)))
    {
      assert Steady(tables, pages, k);
      if HasKey(items, k) {
        var i :| 0 <= i < |items| && items[i].key == k;
        assert (items + p)[i].key == k;
      } else {
        PageIsComplete(tables(pages).value, cursor, size, k);
        if HasKey(p, k) {
          var i :| 0 <= i < |p| && p[i].key == k;
          assert (items + p)[|items| + i].key == k;
        }
      }
    }
  }

  /** On an unchanging table a page continues exactly where the last one ended. */
  lemma AfterContinues<T>(d: seq<Row<T>>, start: Key, m: nat, rows: seq<Row<T>>)
    requires Table(d) && rows == After(d, start) && m <= |rows|
    ensures After(d, LastKey(start, rows[..m])) == rows[m..]
  {
    var n := AfterIsSuffix(d, start);
    if m > 0 {
      AfterARow(d, n + m);
      assert rows[..m][m - 1] == d[n + m - 1];
      assert rows[m..] == d[n + m..];
    }
  }

  /** After the key of row k - 1 come the rows from k on. */
  lemma AfterARow<T>(d: seq<Row<T>>, k: nat)
    requires Table(d) && 0 < k <= |d|
    ensures After(d, d[k - 1].key) == d[k..]
  {
    var cursor := d[k - 1].key;
    forall i | 0 <= i < k ensures !Less(cursor, d[i].key) {
      NotBackwards(d, i, k - 1);
    }
    assert forall i :: k <= i < |d| ==> Less(cursor, d[i].key);
    AfterSkips(d, cursor, k);
  }

  lemma NotBackwards<T>(d: seq<Row<T>>, i: nat, j: nat)
    requires Ascending(d) && i <= j < |d|
    ensures !Less(d[j].key, d[i].key)
  {
    LessIsTotal(d[j].key, d[i].key);
  }

  lemma PageContinues<T>(d: seq<Row<T>>, start: Key, m: nat, size: nat, rows: seq<Row<T>>)
    requires Table(d) && rows == After(d, start) && m <= |rows|
    ensures var end := if m + size <= |rows| then m + size else |rows|;
            var page := Page(d, LastKey(start, rows[..m]), size);
            rows[..m] + page == rows[..end] && (|page| == size <==> m + size <= |rows|)
  {
    AfterContinues(d, start, m, rows);
    TakeOn(rows, m, size, rows[m..], Page(d, LastKey(start, rows[..m]), size));
  }

  lemma TakeOn<T>(rows: seq<T>, m: nat, size: nat, rest: seq<T>, page: seq<T>)
    requires m <= |rows| && rest == rows[m..]
    requires page == if |rest| <= size then rest else rest[..size]
    ensures var end := if m + size <= |rows| then m + size else |rows|;
            rows[..m] + page == rows[..end] && (|page| == size <==> m + size <= |rows|)
  {
  }

  // ------------------------------------------------------------ the page loop

  datatype Stop = ShortPage | MissingCursor | PageCap

  datatype Outcome<T> =
    | Fetched(items: seq<Row<T>>, stop: Stop, pages: nat, warnedTruncated: bool)
    | Thrown(page: nat)

  /** The loop from page number `page` on. `tables(p)` is the table when page p
      is fetched, None when that request throws. A page size of zero makes the
      loop read a cursor off a missing item, which throws. An exception is told
      by the page at which the loop was. */
  function Walk<T>(
      tables: nat -> Option<seq<Row<T>>>, getCursor: Row<T> -> Key, pageSize: nat, maxPages: nat,
      page: nat, cursor: Key, items: seq<Row<T>>, warned: bool): Outcome<T>
    requires page <= maxPages
    decreases maxPages - page
  {
    if page == maxPages then Fetched(items, PageCap, page, warned)
    else if tables(page).None? then Thrown(page)
    else
      var pageItems := Page(tables(page).value, cursor, pageSize);
      var items' := items + pageItems;
      var warned' := warned || (page == maxPages - 1 && |pageItems| == pageSize);
      if |pageItems| < pageSize then Fetched(items', ShortPage, page + 1, warned')
      else if pageItems == [] then Thrown(page)
      else
        var next := getCursor(pageItems[|pageItems| - 1]);
        if next == [] then Fetched(items', MissingCursor, page + 1, warned')
        else Walk(tables, getCursor, pageSize, maxPages, page + 1, next, items', warned')
  }

  /** Every item reports its own key as cursor, or (for an omitted id) nothing. */
  ghost predicate ReportsKeys<T(!new)>(tables: nat -> Option<seq<Row<T>>>, getCursor: Row<T> -> Key) {
    forall p: nat, row ::
      tables(p).Some? && row in tables(p).value ==> getCursor(row) == row.key || getCursor(row) == []
  }

  /** What a call promises when the table may change between any two pages. */
  ghost predicate Trustworthy<T>(
      tables: nat -> Option<seq<Row<T>>>, getCursor: Row<T> -> Key, start: Key, maxPages: nat, r: Outcome<T>)
  {
    r.Fetched? ==>
      && r.pages <= maxPages
      && Sound(tables, r.pages, start, r.items)
      && (if r.stop == ShortPage then Exhaustive(tables, r.pages, start, r.items)
          else Complete(tables, r.pages, start, r.items, LastKey(start, r.items)))
      && (r.stop == MissingCursor ==> r.items != [] && getCursor(r.items[|r.items| - 1]) == [])
      && (r.stop == PageCap ==> r.pages == maxPages && (r.warnedTruncated <==> maxPages > 0))
  }

  /** What one more page establishes, whether or not it is the last one. */
  lemma PageStep<T(!new)>(
      tables: nat -> Option<seq<Row<T>>>, getCursor: Row<T> -> Key, start: Key, pageSize: nat,
      page: nat, items: seq<Row<T>>, items': seq<Row<T>>)
    requires Tables(tables) && ReportsKeys(tables, getCursor) && tables(page).Some?
    requires Sound(tables, page, start, items)
    requires Complete(tables, page, start, items, LastKey(start, items))
    requires items' == items + Page(tables(page).value, LastKey(start, items), pageSize)
    ensures Sound(tables, page + 1, start, items')
    ensures |items'| - |items| < pageSize ==> Exhaustive(tables, page + 1, start, items')
    ensures |items'| - |items| == pageSize > 0 ==>
              && items' != []
              && Complete(tables, page + 1, start, items', LastKey(start, items'))
              && getCursor(items'[|items'| - 1]) in {LastKey(start, items'), []}
  {
    var d, cursor := tables(page).value, LastKey(start, items);
    var pageItems := Page(d, cursor, pageSize);
    PageKeepsSound(tables, page, start, items, pageSize);
    PageKeepsComplete(tables, page, start, items, pageSize);
    PageIsOrdered(d, cursor, pageSize);
    if |pageItems| == pageSize > 0 {
      assert items'[|items'| - 1] == pageItems[pageSize - 1] && pageItems[pageSize - 1] in d;
    }
  }

  lemma {:induction false} WalkIsTrustworthy<T(!new)>(
      tables: nat -> Option<seq<Row<T>>>, getCursor: Row<T> -> Key, start: Key, pageSize: nat, maxPages: nat,
      page: nat, items: seq<Row<T>>, warned: bool, r: Outcome<T>)
    requires Tables(tables) && ReportsKeys(tables, getCursor) && page <= maxPages
    requires r == Walk(tables, getCursor, pageSize, maxPages, page, LastKey(start, items), items, warned)
    requires Sound(tables, page, start, items)
    requires Complete(tables, page, start, items, LastKey(start, items))
    requires warned <==> page == maxPages > 0
    ensures Trustworthy(tables, getCursor, start, maxPages, r)
    decreases maxPages - page
  {
    if page < maxPages && tables(page).Some? {
      var items' := items + Page(tables(page).value, LastKey(start, items), pageSize);
      PageStep(tables, getCursor, start, pageSize, page, items, items');
      if |items'| - |items| == pageSize > 0 && getCursor(items'[|items'| - 1]) != [] {
        WalkIsTrustworthy(tables, getCursor, start, pageSize, maxPages, page + 1, items', page == maxPages - 1, r);
      } else {
        LastPageIsTrustworthy(tables, getCursor, start, pageSize, maxPages, page, items, items', r);
      }
    }
  }

  /** The page that ends the loop: a short one, or one whose last item has no cursor. */
  lemma LastPageIsTrustworthy<T(!new)>(
      tables: nat -> Option<seq<Row<T>>>, getCursor: Row<T> -> Key, start: Key, pageSize: nat, maxPages: nat,
      page: nat, items: seq<Row<T>>, items': seq<Row<T>>, r: Outcome<T>)
    requires page < maxPages && Sound(tables, page + 1, start, items')
    requires |items'| - |items| < pageSize ==> Exhaustive(tables, page + 1, start, items')
    requires |items'| - |items| == pageSize > 0 ==>
               items' != [] && Complete(tables, page + 1, start, items', LastKey(start, items'))
    requires r.Thrown? || (r.Fetched? && r.items == items' && r.pages == page + 1)
    requires r.Fetched? ==>
               || (r.stop.ShortPage? && |items'| - |items| < pageSize)
               || (r.stop.MissingCursor? && |items'| - |items| == pageSize > 0 && getCursor(items'[|items'| - 1]) == [])
    ensures Trustworthy(tables, getCursor, start, maxPages, r)
  {
  }

  /** The rows that `pages` full pages hold: the product, written so that the
      loop can add one page at a time. */
  function Capacity(pages: nat, size: nat): nat {
    if pages == 0 then 0 else size + Capacity(pages - 1, size)
  }

  lemma {:induction false} CapacityIsProduct(pages: nat, size: nat)
    ensures Capacity(pages, size) == size * pages
  {
    if pages > 0 {
      CapacityIsProduct(pages - 1, size);
    }
  }

  /** The rows of the first k pages end with one that has a cursor. */
  predicate GoesOn<T>(getCursor: Row<T> -> Key, pageSize: nat, items: seq<Row<T>>, k: nat) {
    0 < Capacity(k, pageSize) <= |items| && getCursor(items[Capacity(k, pageSize) - 1]) != []
  }

  /** The requests behind an outcome. A result is returned only when every request
      was answered: all pages but the last are full and end with a cursor, and the
      last one says why it was the last. A warning is given exactly when the page
      cap was reached with a full page. An exception is that of a failed request,
      every earlier one having been answered, or of a page size of zero. */
  ghost predicate Accounted<T>(
      tables: nat -> Option<seq<Row<T>>>, getCursor: Row<T> -> Key, pageSize: nat, maxPages: nat, r: Outcome<T>)
  {
    match r
    case Fetched(items, stop, pages, warned) =>
      && pages <= maxPages && (pages == 0 || pageSize == 0 ==> maxPages == 0)
      && (forall p: nat :: p < pages ==> tables(p).Some?)
      && (forall k: nat :: 0 < k < pages ==> GoesOn(getCursor, pageSize, items, k))
      && (warned <==> stop != ShortPage && pages == maxPages > 0)
      && (match stop
          case ShortPage => pages > 0 && Capacity(pages - 1, pageSize) <= |items| < Capacity(pages, pageSize)
          case MissingCursor =>
            |items| == Capacity(pages, pageSize) > 0 && getCursor(items[|items| - 1]) == []
          case PageCap =>
            && pages == maxPages && |items| == Capacity(pages, pageSize)
            && (pages > 0 ==> GoesOn(getCursor, pageSize, items, pages)))
    case Thrown(page) =>
      && page < maxPages && (forall p: nat :: p < page ==> tables(p).Some?)
      && (tables(page).None? || (page == 0 && pageSize == 0))
  }

  lemma {:induction false} WalkIsAccounted<T>(
      tables: nat -> Option<seq<Row<T>>>, getCursor: Row<T> -> Key, pageSize: nat, maxPages: nat,
      page: nat, cursor: Key, items: seq<Row<T>>, warned: bool)
    requires page <= maxPages && |items| == Capacity(page, pageSize) && (pageSize == 0 ==> page == 0)
    requires forall p: nat :: p < page ==> tables(p).Some?
    requires forall k: nat :: 0 < k <= page ==> GoesOn(getCursor, pageSize, items, k)
    requires warned <==> page == maxPages > 0
    ensures Accounted(tables, getCursor, pageSize, maxPages,
                      Walk(tables, getCursor, pageSize, maxPages, page, cursor, items, warned))
    decreases maxPages - page
  {
    if page < maxPages && tables(page).Some? {
      var pageItems := Page(tables(page).value, cursor, pageSize);
      var items' := items + pageItems;
      MoreItemsGoOn(getCursor, pageSize, items, pageItems, page);
      if |pageItems| == pageSize > 0 {
        var next := getCursor(pageItems[pageSize - 1]);
        assert items'[|items'| - 1] == pageItems[pageSize - 1];
        if next != [] {
          assert GoesOn(getCursor, pageSize, items', page + 1);
          WalkIsAccounted(tables, getCursor, pageSize, maxPages, page + 1, next, items', page == maxPages - 1);
        }
      }
    }
  }

  lemma MoreItemsGoOn<T>(
      getCursor: Row<T> -> Key, pageSize: nat, items: seq<Row<T>>, more: seq<Row<T>>, pages: nat)
    requires forall k: nat :: 0 < k <= pages ==> GoesOn(getCursor, pageSize, items, k)
    ensures forall k: nat :: 0 < k <= pages ==> GoesOn(getCursor, pageSize, items + more, k)
  {
    forall k: nat | 0 < k <= pages ensures GoesOn(getCursor, pageSize, items + more, k) {
      assert GoesOn(getCursor, pageSize, items, k);
    }
  }

  /** Did the loop make request number p? */
  predicate Requested<T>(r: Outcome<T>, p: nat) {
    if r.Fetched? then p < r.pages else p <= r.page
  }

  /** No failure is swallowed: whatever a call that reached page p would have come
      to, if the request for that page fails instead, the call throws there. */
  lemma {:induction false} FailedRequestsThrow<T>(
      tables: nat -> Option<seq<Row<T>>>, failing: nat -> Option<seq<Row<T>>>, getCursor: Row<T> -> Key,
      pageSize: nat, maxPages: nat, page: nat, cursor: Key, items: seq<Row<T>>, warned: bool, p: nat)
    requires page <= p && page <= maxPages
    requires failing(p).None? && forall q: nat :: q < p ==> failing(q) == tables(q)
    requires Requested(Walk(tables, getCursor, pageSize, maxPages, page, cursor, items, warned), p)
    ensures Walk(failing, getCursor, pageSize, maxPages, page, cursor, items, warned) == Thrown(p)
    decreases maxPages - page
  {
    WalkStopsInTime(tables, getCursor, pageSize, maxPages, page, cursor, items, warned, p);
    if page < p && tables(page).Some? {
      var pageItems := Page(tables(page).value, cursor, pageSize);
      var items' := items + pageItems;
      if |pageItems| == pageSize > 0 && getCursor(pageItems[pageSize - 1]) != [] {
        var next := getCursor(pageItems[pageSize - 1]);
        FailedRequestsThrow(
          tables, failing, getCursor, pageSize, maxPages, page + 1, next, items', warned || page == maxPages - 1, p);
      }
    }
  }

  lemma {:induction false} WalkStopsInTime<T>(
      tables: nat -> Option<seq<Row<T>>>, getCursor: Row<T> -> Key, pageSize: nat, maxPages: nat,
      page: nat, cursor: Key, items: seq<Row<T>>, warned: bool, p: nat)
    requires page <= maxPages
    requires Requested(Walk(tables, getCursor, pageSize, maxPages, page, cursor, items, warned), p)
    ensures p < maxPages
    decreases maxPages - page
  {
    if page < maxPages && tables(page).Some? {
      var pageItems := Page(tables(page).value, cursor, pageSize);
      if |pageItems| == pageSize > 0 && getCursor(pageItems[pageSize - 1]) != [] {
        WalkStopsInTime(tables, getCursor, pageSize, maxPages, page + 1, getCursor(pageItems[pageSize - 1]),
                        items + pageItems, warned || page == maxPages - 1, p);
      }
    }
  }

  /** The table does not change over the whole call and every row reports its key. */
  ghost predicate Unchanging<T(!new)>(
      tables: nat -> Option<seq<Row<T>>>, getCursor: Row<T> -> Key, d: seq<Row<T>>, pages: nat)
  {
    && (forall p: nat :: p < pages ==> tables(p) == Some(d))
    && (forall row :: row in d ==> getCursor(row) == row.key)
  }

  function Min(a: int, b: int): int { if a < b then a else b }

  /** The page that follows the first m rows, and the cursor it leaves. */
  ghost predicate PageFits<T>(
      d: seq<Row<T>>, getCursor: Row<T> -> Key, start: Key, size: nat, rows: seq<Row<T>>, m: nat)
  {
    m <= |rows| ==>
      var page := Page(d, LastKey(start, rows[..m]), size);
      if m + size <= |rows| then
        && |page| == size && rows[..m] + page == rows[..m + size]
        && (size > 0 ==> getCursor(page[size - 1]) == LastKey(start, rows[..m + size]) != [])
      else
        |page| < size && rows[..m] + page == rows[..|rows|]
  }

  /** One more full page of an unchanging table. */
  lemma UnchangingStep<T(!new)>(
      d: seq<Row<T>>, getCursor: Row<T> -> Key, start: Key, size: nat, rows: seq<Row<T>>, m: nat)
    requires Table(d) && rows == After(d, start)
    requires forall row :: row in d ==> getCursor(row) == row.key
    ensures PageFits(d, getCursor, start, size, rows, m)
  {
    if m <= |rows| {
      var cursor := LastKey(start, rows[..m]);
      var page := Page(d, cursor, size);
      PageContinues(d, start, m, size, rows);
      if m + size <= |rows| && size > 0 {
        LastOfPage(d, getCursor, cursor, size, page);
        LastRow(start, rows, m, m + size, page);
      }
    }
  }

  lemma LastRow<T>(start: Key, rows: seq<Row<T>>, m: nat, n: nat, page: seq<Row<T>>)
    requires m < n <= |rows| && |page| == n - m && rows[..m] + page == rows[..n]
    ensures page[n - m - 1].key == LastKey(start, rows[..n])
  {
    assert page[n - m - 1] == (rows[..m] + page)[n - 1];
  }

  lemma LastOfPage<T(!new)>(d: seq<Row<T>>, getCursor: Row<T> -> Key, cursor: Key, size: nat, page: seq<Row<T>>)
    requires Table(d) && page == Page(d, cursor, size) && |page| == size > 0
    requires forall row :: row in d ==> getCursor(row) == row.key
    ensures getCursor(page[size - 1]) == page[size - 1].key != []
  {
    PageIsOrdered(d, cursor, size);
    assert page[size - 1] in d;
  }

  lemma WalkContinues<T(!new)>(
      tables: nat -> Option<seq<Row<T>>>, getCursor: Row<T> -> Key, d: seq<Row<T>>, start: Key,
      pageSize: nat, maxPages: nat, page: nat, m: nat, n: nat, warned: bool, next: bool, rows: seq<Row<T>>)
    requires page < maxPages && tables(page) == Some(d) && pageSize > 0
    requires PageFits(d, getCursor, start, pageSize, rows, m)
    requires n == m + pageSize <= |rows| && next == (warned || page == maxPages - 1)
    ensures Walk(tables, getCursor, pageSize, maxPages, page, LastKey(start, rows[..m]), rows[..m], warned)
         == Walk(tables, getCursor, pageSize, maxPages, page + 1, LastKey(start, rows[..n]), rows[..n], next)
  {
  }

  lemma WalkEnds<T(!new)>(
      tables: nat -> Option<seq<Row<T>>>, getCursor: Row<T> -> Key, d: seq<Row<T>>, start: Key,
      pageSize: nat, maxPages: nat, page: nat, m: nat, warned: bool, rows: seq<Row<T>>)
    requires page < maxPages && tables(page) == Some(d) && m <= |rows| < m + pageSize
    requires PageFits(d, getCursor, start, pageSize, rows, m)
    ensures Walk(tables, getCursor, pageSize, maxPages, page, LastKey(start, rows[..m]), rows[..m], warned)
         == Fetched(rows[..|rows|], ShortPage, page + 1, warned)
  {
  }

  /** What the loop does on an unchanging table: take the rows page by page. */
  function Fill<T>(rows: seq<Row<T>>, size: nat, maxPages: nat, page: nat, m: nat, warned: bool): Outcome<T>
    requires page <= maxPages && m <= |rows|
    decreases maxPages - page
  {
    if page == maxPages then Fetched(rows[..m], PageCap, page, warned)
    else if m + size > |rows| then Fetched(rows[..|rows|], ShortPage, page + 1, warned)
    else Fill(rows, size, maxPages, page + 1, m + size, warned || page == maxPages - 1)
  }

  lemma {:induction false} WalkFills<T(!new)>(
      tables: nat -> Option<seq<Row<T>>>, getCursor: Row<T> -> Key, d: seq<Row<T>>, start: Key,
      pageSize: nat, maxPages: nat, page: nat, m: nat, warned: bool, rows: seq<Row<T>>, r: Outcome<T>)
    requires forall p: nat :: p < maxPages ==> tables(p) == Some(d)
    requires forall k: nat :: PageFits(d, getCursor, start, pageSize, rows, k)
    requires page <= maxPages && pageSize > 0 && m <= |rows|
    requires r == Walk(tables, getCursor, pageSize, maxPages, page, LastKey(start, rows[..m]), rows[..m], warned)
    ensures r == Fill(rows, pageSize, maxPages, page, m, warned)
    decreases maxPages - page, 0
  {
    if page < maxPages {
      assert PageFits(d, getCursor, start, pageSize, rows, m);
      if m + pageSize <= |rows| {
        WalkFillsOn(tables, getCursor, d, start, pageSize, maxPages, page, m, m + pageSize, warned, rows, r);
      } else {
        WalkEnds(tables, getCursor, d, start, pageSize, maxPages, page, m, warned, rows);
      }
    }
  }

  lemma {:induction false} WalkFillsOn<T(!new)>(
      tables: nat -> Option<seq<Row<T>>>, getCursor: Row<T> -> Key, d: seq<Row<T>>, start: Key,
      pageSize: nat, maxPages: nat, page: nat, m: nat, n: nat, warned: bool, rows: seq<Row<T>>, r: Outcome<T>)
    requires forall p: nat :: p < maxPages ==> tables(p) == Some(d)
    requires forall k: nat :: PageFits(d, getCursor, start, pageSize, rows, k)
    requires page < maxPages && pageSize > 0 && n == m + pageSize <= |rows|
    requires r == Walk(tables, getCursor, pageSize, maxPages, page, LastKey(start, rows[..m]), rows[..m], warned)
    ensures r == Fill(rows, pageSize, maxPages, page + 1, n, warned || page == maxPages - 1)
    decreases maxPages - page - 1, 1
  {
    var next := warned || page == maxPages - 1;
    WalkContinues(tables, getCursor, d, start, pageSize, maxPages, page, m, n, warned, next, rows);
    WalkFills(tables, getCursor, d, start, pageSize, maxPages, page + 1, n, next, rows, r);
  }

  /** Standing after m of the rows it returns as many more as the pages left hold,
      and does not stay silent when it leaves some out. */
  lemma {:induction false} FillTakesThePagesLeft<T>(
      rows: seq<Row<T>>, size: nat, maxPages: nat, page: nat, m: nat, warned: bool)
    requires page <= maxPages && m <= |rows| && (page == maxPages ==> warned)
    ensures var r := Fill(rows, size, maxPages, page, m, warned);
            && r.Fetched? && (|r.items| < |rows| ==> r.warnedTruncated)
            && r.items == rows[..Min(|rows|, m + Capacity(maxPages - page, size))]
    decreases maxPages - page
  {
    if page < maxPages && m + size <= |rows| {
      FillTakesThePagesLeft(rows, size, maxPages, page + 1, m + size, warned || page == maxPages - 1);
    }
  }

  // ---------------------------------------------------------- single-key loop

  /** The shared loop. The cursor starts as the empty string, which precedes
      every key. */
  method PaginateSubgraphCursor<T(!new)>(
      pageSize: nat, maxPages: nat, tables: nat -> Option<seq<Row<T>>>, getCursor: Row<T> -> Key)
    returns (r: Outcome<T>)
    requires Tables(tables)
    ensures r == Walk(tables, getCursor, pageSize, maxPages, 0, [], [], false)
    ensures ReportsKeys(tables, getCursor) ==> Trustworthy(tables, getCursor, [], maxPages, r)
  {
    if ReportsKeys(tables, getCursor) {
      WalkIsTrustworthy(tables, getCursor, [], pageSize, maxPages, 0, [], false,
                        Walk(tables, getCursor, pageSize, maxPages, 0, [], [], false));
    }
    var items: seq<Row<T>> := [];
    var cursor: Key := [];
    var warned := false;
    for page := 0 to maxPages
      invariant Walk(tables, getCursor, pageSize, maxPages, 0, [], [], false)
             == Walk(tables, getCursor, pageSize, maxPages, page, cursor, items, warned)
    {
      if tables(page).None? {
        return Thrown(page);
      }
      var pageItems := Page(tables(page).value, cursor, pageSize);
      items := items + pageItems;
      if page == maxPages - 1 && |pageItems| == pageSize {
        warned := true;
      }
      if |pageItems| < pageSize {
        return Fetched(items, ShortPage, page + 1, warned);
      }
      if |pageItems| == 0 {
        return Thrown(page);
      }
      var nextCursor := getCursor(pageItems[|pageItems| - 1]);
      if nextCursor == [] {
        return Fetched(items, MissingCursor, page + 1, warned);
      }
      cursor := nextCursor;
    }
    return Fetched(items, PageCap, maxPages, warned);
  }

  /** A table that does not change, read from `start` on: exactly its first
      pageSize * maxPages rows, and a warning whenever rows were left out. */
  lemma FixedTableIsReadUpToTheCap<T(!new)>(
      tables: nat -> Option<seq<Row<T>>>, getCursor: Row<T> -> Key, d: seq<Row<T>>, start: Key,
      pageSize: nat, maxPages: nat, r: Outcome<T>)
    requires Table(d) && Unchanging(tables, getCursor, d, maxPages) && pageSize > 0 && maxPages > 0
    requires r == Walk(tables, getCursor, pageSize, maxPages, 0, start, [], false)
    ensures var rows := After(d, start);
            && r.Fetched?
            && r.items == rows[..Min(|rows|, pageSize * maxPages)]
            && (|r.items| < |rows| ==> r.warnedTruncated)
  {
    assert After(d, start)[..0] == [];
    CapacityIsProduct(maxPages, pageSize);
    forall k: nat ensures PageFits(d, getCursor, start, pageSize, After(d, start), k) {
      UnchangingStep(d, getCursor, start, pageSize, After(d, start), k);
    }
    WalkFills(tables, getCursor, d, start, pageSize, maxPages, 0, 0, false, After(d, start), r);
    FillTakesThePagesLeft(After(d, start), pageSize, maxPages, 0, 0, false);
  }

  /** From the empty cursor that is the table itself. Truncation is silent in
      one case only: a cap of zero pages fetches nothing and says nothing. */
  lemma FixedTableIsReadInFull<T(!new)>(
      tables: nat -> Option<seq<Row<T>>>, getCursor: Row<T> -> Key, d: seq<Row<T>>, pageSize: nat, maxPages: nat)
    requires Table(d) && Unchanging(tables, getCursor, d, maxPages) && pageSize > 0
    ensures var r := Walk(tables, getCursor, pageSize, maxPages, 0, [], [], false);
            && r.Fetched?
            && r.items == d[..Min(|d|, pageSize * maxPages)]
            && ((|r.items| < |d| ==> r.warnedTruncated) <==> maxPages > 0 || d == [])
  {
    AfterSkips(d, [], 0);
    assert d[0..] == d;
    var r := Walk(tables, getCursor, pageSize, maxPages, 0, [], [], false);
    if maxPages > 0 {
      FixedTableIsReadUpToTheCap(tables, getCursor, d, [], pageSize, maxPages, r);
    }
  }
}
