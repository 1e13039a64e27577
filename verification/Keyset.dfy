/**
 Keyset paging over a table that changes between requests. A row is known by its time and identifier; a page holds the
 next rows in descending order below the last row served.
 */
module Keyset {
  import opened Common
  import opened Arithmetic

  datatype Key = Key(at: Time, id: string)

  // ---------- The order ----------

  predicate TextLess(a: string, b: string) {
    b != "" && (a == "" || a[0] < b[0] || (a[0] == b[0] && TextLess(a[1..], b[1..])))
  }

  lemma {:induction false} TextLessTransitive(a: string, b: string, c: string)
    requires TextLess(a, b) && TextLess(b, c)
    ensures TextLess(a, c)
  {
    if a != "" && a[0] == b[0] == c[0] {
      TextLessTransitive(a[1..], b[1..], c[1..]);
    }
  }

  lemma {:induction false} TextLessTotal(a: string, b: string)
    ensures a == b || TextLess(a, b) || TextLess(b, a)
    ensures !(a == b && TextLess(a, b)) && !(TextLess(a, b) && TextLess(b, a))
  {
    if a != "" && b != "" && a[0] == b[0] {
      TextLessTotal(a[1..], b[1..]);
      assert a == [a[0]] + a[1..] && b == [b[0]] + b[1..];
    }
  }

  /** The row comparison `(at, id) < (at, id)`. */
  predicate Less(a: Key, b: Key) {
    a.at < b.at || (a.at == b.at && TextLess(a.id, b.id))
  }

  lemma LessTransitive(a: Key, b: Key, c: Key)
    requires Less(a, b) && Less(b, c)
    ensures Less(a, c)
  {
    if a.at == b.at == c.at {
      TextLessTransitive(a.id, b.id, c.id);
    }
  }

  lemma LessTotal(a: Key, b: Key)
    ensures a == b || Less(a, b) || Less(b, a)
    ensures !(a == b && Less(a, b)) && !(Less(a, b) && Less(b, a))
  {
    TextLessTotal(a.id, b.id);
  }

  // ---------- The descending listing of a table ----------

  ghost predicate Descends(s: seq<Key>) {
    forall i, j :: 0 <= i < j < |s| ==> Less(s[j], s[i])
  }

  ghost function Newest(rows: set<Key>): (newest: Key)
    requires rows != {}
    ensures newest in rows && forall key :: key in rows && key != newest ==> Less(key, newest)
    decreases |rows|
  {
    var key :| key in rows;
    if rows == {key} then key
    else
      var rest := rows - {key};
      assert rest != {};
      var best := Newest(rest);
      LessTotal(key, best);
      if Less(key, best) then best
      else
        (forall other | other in rest && other != best ensures Less(other, key) { LessTransitive(other, best, key); }
         key)
  }

  /** `ORDER BY at DESC, id DESC`. */
  ghost function Listing(rows: set<Key>): seq<Key>
    decreases |rows|
  {
    if rows == {} then [] else [Newest(rows)] + Listing(rows - {Newest(rows)})
  }

  lemma {:induction false} ListingIsSorted(rows: set<Key>)
    ensures Descends(Listing(rows)) && |Listing(rows)| == |rows|
    ensures forall key :: key in Listing(rows) <==> key in rows
    decreases |rows|
  {
    if rows != {} {
      ListingIsSorted(rows - {Newest(rows)});
      var all, rest := Listing(rows), Listing(rows - {Newest(rows)});
      forall j | 1 <= j < |all| ensures Less(all[j], all[0]) {
        assert all[j] == rest[j - 1] && rest[j - 1] in rest;
      }
    }
  }

  lemma SplitMembers<T>(s: seq<T>, n: nat, x: T)
    requires n <= |s|
    ensures x in s <==> x in s[..n] || x in s[n..]
  {
    assert s == s[..n] + s[n..];
  }

  /** A descending sequence is the listing of its elements. */
  lemma {:induction false} ListingUnique(s: seq<Key>, rows: set<Key>)
    requires Descends(s) && forall key :: key in s <==> key in rows
    ensures Listing(rows) == s
    decreases |s|
  {
    if s == [] {
      assert rows == {};
    } else {
      assert s[0] in rows;
      var newest := Newest(rows);
      if newest != s[0] {
        var i :| 0 <= i < |s| && s[i] == newest;
        assert Less(s[i], s[0]);
        LessTotal(s[0], newest);
      }
      forall key ensures key in s[1..] <==> key in rows - {newest} {
        SplitMembers(s, 1, key);
        if key in s[1..] {
          var i :| 1 <= i < |s| && s[i] == key;
          LessTotal(s[i], s[0]);
        }
      }
      ListingUnique(s[1..], rows - {newest});
    }
  }

  // ---------- One page ----------

  ghost function Below(rows: set<Key>, cursor: Option<Key>): set<Key> {
    set key | key in rows && (cursor.None? || Less(key, cursor.value))
  }

  /** The query of a page: at most `limit` rows below the cursor, in descending order. */
  ghost function Query(rows: set<Key>, cursor: Option<Key>, limit: nat): seq<Key> {
    var all := Listing(Below(rows, cursor));
    if |all| > limit then all[..limit] else all
  }

  datatype Page<R> = Page(items: seq<R>, next: Option<Key>)

  /** What a page ought to hold: up to `size` rows, and a cursor exactly when rows are left. */
  ghost function PageOf(rows: set<Key>, cursor: Option<Key>, size: nat): Page<Key>
    requires size > 0
  {
    var all := Listing(Below(rows, cursor));
    ListingIsSorted(Below(rows, cursor));
    if |all| > size then Page(all[..size], Some(all[size - 1])) else Page(all, None)
  }

  /** Nothing is skipped: a row below the cursor is on the page, or the page has a cursor above it. */
  lemma PageSkipsNothing(rows: set<Key>, cursor: Option<Key>, size: nat, key: Key)
    requires size > 0 && key in Below(rows, cursor)
    ensures var page := PageOf(rows, cursor, size);
      key in page.items || (page.next.Some? && Less(key, page.next.value))
  {
    var all := Listing(Below(rows, cursor));
    ListingIsSorted(Below(rows, cursor));
    assert key in all;
    var i :| 0 <= i < |all| && all[i] == key;
    if i < size && |all| > size {
      assert all[..size][i] == key;
    }
  }

  lemma PageIsBelowCursor(rows: set<Key>, cursor: Option<Key>, size: nat)
    requires size > 0
    ensures var page := PageOf(rows, cursor, size);
      && Descends(page.items) && |page.items| <= size
      && (forall key :: key in page.items ==> key in rows && (cursor.Some? ==> Less(key, cursor.value)))
      && (page.next.Some? ==> |page.items| == size && page.next.value == page.items[size - 1])
  {
    ListingIsSorted(Below(rows, cursor));
    var all := Listing(Below(rows, cursor));
    forall key | key in PageOf(rows, cursor, size).items ensures key in Below(rows, cursor) {
      assert key in all;
    }
  }

  // ---------- Crawling a changing table ----------

  /** The rows a client gathers when the table is tables[i] at its i-th request and it follows the cursors. */
  ghost function Crawl(tables: seq<set<Key>>, cursor: Option<Key>, size: nat): seq<Key>
    requires size > 0
    decreases |tables|
  {
    if tables == [] then []
    else
      var page := PageOf(tables[0], cursor, size);
      page.items + if page.next.None? then [] else Crawl(tables[1..], page.next, size)
  }

  /** One of these requests is answered without a cursor. */
  ghost predicate Ends(tables: seq<set<Key>>, cursor: Option<Key>, size: nat)
    requires size > 0
    decreases |tables|
  {
    tables != []
    && (PageOf(tables[0], cursor, size).next.None? || Ends(tables[1..], PageOf(tables[0], cursor, size).next, size))
  }

  lemma DescendingJoin(s: seq<Key>, rest: seq<Key>)
    requires Descends(s) && Descends(rest) && s != [] && forall key :: key in rest ==> Less(key, s[|s| - 1])
    ensures Descends(s + rest)
  {
    var last := |s| - 1;
    forall i, j | 0 <= i < |s| && 0 <= j < |rest| ensures Less(rest[j], s[i]) {
      assert rest[j] in rest;
      if i < last {
        LessTransitive(rest[j], s[last], s[i]);
      }
    }
  }

  /** Whatever happens to the table, the rows gathered descend strictly, so none is returned twice. */
  lemma {:induction false} CrawlDescends(tables: seq<set<Key>>, cursor: Option<Key>, size: nat)
    requires size > 0
    ensures Descends(Crawl(tables, cursor, size))
    ensures forall key :: key in Crawl(tables, cursor, size) ==>
      (cursor.Some? ==> Less(key, cursor.value)) && exists i :: 0 <= i < |tables| && key in tables[i]
    decreases |tables|
  {
    if tables != [] {
      var page := PageOf(tables[0], cursor, size);
      PageIsBelowCursor(tables[0], cursor, size);
      if page.next.Some? {
        var rest := Crawl(tables[1..], page.next, size);
        CrawlDescends(tables[1..], page.next, size);
        forall key | key in rest ensures cursor.Some? ==> Less(key, cursor.value) {
          if cursor.Some? {
            LessTransitive(key, page.items[size - 1], cursor.value);
          }
        }
        DescendingJoin(page.items, rest);
        forall key | key in rest ensures exists i :: 0 <= i < |tables| && key in tables[i] {
          var i :| 0 <= i < |tables[1..]| && key in tables[1..][i];
          assert key in tables[i + 1];
        }
      }
    }
  }

  /** A row that is in the table at every request is gathered by a crawl that ends. */
  lemma {:induction false} CrawlFindsStayingRow(tables: seq<set<Key>>, cursor: Option<Key>, size: nat, key: Key)
    requires size > 0 && Ends(tables, cursor, size)
    requires (forall i :: 0 <= i < |tables| ==> key in tables[i]) && (cursor.Some? ==> Less(key, cursor.value))
    ensures key in Crawl(tables, cursor, size)
    decreases |tables|
  {
    assert key in tables[0];
    PageSkipsNothing(tables[0], cursor, size, key);
    var page := PageOf(tables[0], cursor, size);
    if key !in page.items {
      forall i | 0 <= i < |tables[1..]| ensures key in tables[1..][i] {
        assert tables[1..][i] == tables[i + 1];
      }
      CrawlFindsStayingRow(tables[1..], page.next, size, key);
    }
  }

  // ---------- Exactly which rows a crawl gathers ----------

  /** The cursors of the requests that a crawl makes, first to last. */
  ghost function Cursors(tables: seq<set<Key>>, cursor: Option<Key>, size: nat): (cursors: seq<Option<Key>>)
    requires size > 0 && Ends(tables, cursor, size)
    ensures 0 < |cursors| <= |tables| && cursors[0] == cursor
    ensures forall i :: 0 < i < |cursors| ==> cursors[i].Some?
    decreases |tables|
  {
    var next := PageOf(tables[0], cursor, size).next;
    [cursor] + if next.None? then [] else Cursors(tables[1..], next, size)
  }

  /** A key falls to the request whose cursor is above it while the next one, if there is one, is not. */
  predicate Covers(cursors: seq<Option<Key>>, i: nat, key: Key)
    requires i < |cursors|
  {
    && (cursors[i].Some? ==> Less(key, cursors[i].value))
    && (i + 1 < |cursors| && cursors[i + 1].Some? ==> !Less(key, cursors[i + 1].value))
  }

  lemma {:induction false} CoveredOnce(tables: seq<set<Key>>, cursor: Option<Key>, size: nat, key: Key)
    returns (i: nat)
    requires size > 0 && Ends(tables, cursor, size) && (cursor.Some? ==> Less(key, cursor.value))
    ensures i < |Cursors(tables, cursor, size)| && Covers(Cursors(tables, cursor, size), i, key)
    ensures forall j :: 0 <= j < |Cursors(tables, cursor, size)| && Covers(Cursors(tables, cursor, size), j, key) ==>
      j == i
    decreases |tables|
  {
    var next := PageOf(tables[0], cursor, size).next;
    var cursors := Cursors(tables, cursor, size);
    if next.None? {
      i := 0;
    } else if !Less(key, next.value) {
      i := 0;
      LaterDoNotCover(tables, cursor, size, key);
    } else {
      var rest := Cursors(tables[1..], next, size);
      var k := CoveredOnce(tables[1..], next, size, key);
      i := k + 1;
      CoversShift(cursor, rest, k, key);
      forall j | 0 <= j < |cursors| && Covers(cursors, j, key) ensures j == i {
        if j > 0 {
          CoversShift(cursor, rest, j - 1, key);
        }
      }
    }
  }

  lemma CoversShift(cursor: Option<Key>, rest: seq<Option<Key>>, i: nat, key: Key)
    requires i < |rest|
    ensures Covers([cursor] + rest, i + 1, key) <==> Covers(rest, i, key)
  {
    assert ([cursor] + rest)[i + 1] == rest[i];
  }

  /** At the request that covers it, a row is gathered exactly when it is there. */
  lemma {:induction false} GatheredWhereCovered(tables: seq<set<Key>>, cursor: Option<Key>, size: nat, key: Key, i: nat)
    requires size > 0 && Ends(tables, cursor, size)
    requires i < |Cursors(tables, cursor, size)| && Covers(Cursors(tables, cursor, size), i, key)
    ensures key in Crawl(tables, cursor, size) <==> key in tables[i]
    decreases |tables|
  {
    var page := PageOf(tables[0], cursor, size);
    PageIsBelowCursor(tables[0], cursor, size);
    if i == 0 {
      if page.next.Some? {
        assert Cursors(tables, cursor, size)[1] == page.next;
        CrawlDescends(tables[1..], page.next, size);
      }
      if key in tables[0] {
        PageSkipsNothing(tables[0], cursor, size, key);
      }
    } else {
      var rest := Cursors(tables[1..], page.next, size);
      CoversShift(cursor, rest, i - 1, key);
      GatheredWhereCovered(tables[1..], page.next, size, key, i - 1);
      CoveredIsBelow(tables[1..], page.next, size, key, i - 1);
      ItemsAboveNext(tables[0], cursor, size, key);
    }
  }

  lemma CoveredIsBelow(tables: seq<set<Key>>, cursor: Option<Key>, size: nat, key: Key, i: nat)
    requires size > 0 && Ends(tables, cursor, size) && cursor.Some?
    requires i < |Cursors(tables, cursor, size)| && Covers(Cursors(tables, cursor, size), i, key)
    ensures Less(key, cursor.value)
  {
    var cursors := Cursors(tables, cursor, size);
    if i > 0 {
      SecondCursorBelow(tables, cursor, size);
      if i > 1 {
        LaterCursorBelow(tables, cursor, size, i);
        LessTransitive(cursors[i].value, cursors[1].value, cursor.value);
      }
      LessTransitive(key, cursors[i].value, cursor.value);
    }
  }

  lemma LaterDoNotCover(tables: seq<set<Key>>, cursor: Option<Key>, size: nat, key: Key)
    requires size > 0 && Ends(tables, cursor, size) && PageOf(tables[0], cursor, size).next.Some?
    requires !Less(key, PageOf(tables[0], cursor, size).next.value)
    ensures var cursors := Cursors(tables, cursor, size); forall j :: 0 < j < |cursors| ==> !Covers(cursors, j, key)
  {
    var next := PageOf(tables[0], cursor, size).next;
    var cursors := Cursors(tables, cursor, size);
    assert cursors[1] == Cursors(tables[1..], next, size)[0] == next;
    forall j | 0 < j < |cursors| ensures !Covers(cursors, j, key) {
      if j > 1 {
        LaterCursorBelow(tables, cursor, size, j);
      }
      NotBelowLater(key, next.value, cursors[j].value);
    }
  }

  lemma ItemsAboveNext(rows: set<Key>, cursor: Option<Key>, size: nat, key: Key)
    requires size > 0 && PageOf(rows, cursor, size).next.Some? && Less(key, PageOf(rows, cursor, size).next.value)
    ensures key !in PageOf(rows, cursor, size).items
  {
    var page := PageOf(rows, cursor, size);
    PageIsBelowCursor(rows, cursor, size);
    if key in page.items {
      var i :| 0 <= i < |page.items| && page.items[i] == key;
      LessTotal(key, page.items[size - 1]);
    }
  }

  /** The cursors of a crawl descend. */
  lemma {:induction false} LaterCursorBelow(tables: seq<set<Key>>, cursor: Option<Key>, size: nat, j: nat)
    requires size > 0 && Ends(tables, cursor, size) && 1 < j < |Cursors(tables, cursor, size)|
    ensures Less(Cursors(tables, cursor, size)[j].value, Cursors(tables, cursor, size)[1].value)
    decreases |tables|
  {
    var next := PageOf(tables[0], cursor, size).next;
    var cursors, rest := Cursors(tables, cursor, size), Cursors(tables[1..], next, size);
    assert cursors[j] == rest[j - 1] && cursors[1] == rest[0] == next;
    SecondCursorBelow(tables[1..], next, size);
    if j > 2 {
      LaterCursorBelow(tables[1..], next, size, j - 1);
      LessTransitive(rest[j - 1].value, rest[1].value, next.value);
    }
  }

  lemma SecondCursorBelow(tables: seq<set<Key>>, cursor: Option<Key>, size: nat)
    requires size > 0 && Ends(tables, cursor, size) && cursor.Some?
    ensures var cursors := Cursors(tables, cursor, size); |cursors| > 1 ==> Less(cursors[1].value, cursor.value)
  {
    PageIsBelowCursor(tables[0], cursor, size);
  }

  lemma NotBelowLater(key: Key, next: Key, later: Key)
    requires !Less(key, next) && (later == next || Less(later, next))
    ensures !Less(key, later)
  {
    if Less(key, later) && later != next {
      LessTransitive(key, later, next);
    }
  }

  /**
   Whatever happens to the table, a finished crawl gathers a row if and only if the row is in the table at the one
   request that its key falls to.
   */
  lemma CrawlFindsExactly(tables: seq<set<Key>>, size: nat, key: Key)
    requires size > 0 && Ends(tables, None, size)
    ensures var cursors := Cursors(tables, None, size);
      && (exists i :: 0 <= i < |cursors| && Covers(cursors, i, key))
      && (forall i, j ::
            0 <= i < |cursors| && 0 <= j < |cursors| && Covers(cursors, i, key) && Covers(cursors, j, key) ==> i == j)
      && (key in Crawl(tables, None, size) <==>
            exists i :: 0 <= i < |cursors| && Covers(cursors, i, key) && key in tables[i])
  {
    var i := CoveredOnce(tables, None, size, key);
    GatheredWhereCovered(tables, None, size, key, i);
  }

  /** Newest first: a page, and so a crawl, goes back in time, and within a moment back in the order of identifiers. */
  lemma NewestFirst(rows: set<Key>, i: nat, j: nat)
    requires i < j < |Listing(rows)|
    ensures Listing(rows)[i].at > Listing(rows)[j].at
         || (Listing(rows)[i].at == Listing(rows)[j].at && TextLess(Listing(rows)[j].id, Listing(rows)[i].id))
  {
    ListingIsSorted(rows);
  }

  /** After `n` equal characters `a` ends or has the smaller one. */
  predicate FallsBehindAt(a: string, b: string, n: nat) {
    n <= |a| && n < |b| && a[..n] == b[..n] && (n == |a| || a[n] < b[n])
  }

  /** Identifiers are compared at the first character in which they differ; a prefix comes before what it begins. */
  lemma {:induction false} TextLessExactly(a: string, b: string)
    ensures TextLess(a, b) <==> exists n: nat :: FallsBehindAt(a, b, n)
  {
    if a != "" && b != "" && a[0] == b[0] {
      TextLessExactly(a[1..], b[1..]);
      if n: nat :| FallsBehindAt(a[1..], b[1..], n) {
        assert a[..n + 1] == [a[0]] + a[1..][..n] && b[..n + 1] == [b[0]] + b[1..][..n];
        assert FallsBehindAt(a, b, n + 1);
      }
      if n: nat :| FallsBehindAt(a, b, n) {
        assert n > 0 && a[1..][..n - 1] == a[..n][1..] && b[1..][..n - 1] == b[..n][1..];
        assert FallsBehindAt(a[1..], b[1..], n - 1);
      }
    } else if TextLess(a, b) {
      assert FallsBehindAt(a, b, 0);
    }
  }

  ghost predicate InsertOnly(tables: seq<set<Key>>) {
    forall i, j :: 0 <= i <= j < |tables| ==> tables[i] <= tables[j]
  }

  lemma StepwiseInsertOnly(tables: seq<set<Key>>)
    requires forall i :: 0 <= i < |tables| - 1 ==> tables[i] <= tables[i + 1]
    ensures InsertOnly(tables)
  {
    forall i, j | 0 <= i <= j < |tables| ensures tables[i] <= tables[j] {
      StepwiseSubset(tables, i, j);
    }
  }

  lemma {:induction false} StepwiseSubset(tables: seq<set<Key>>, i: nat, j: nat)
    requires forall i :: 0 <= i < |tables| - 1 ==> tables[i] <= tables[i + 1]
    requires i <= j < |tables|
    ensures tables[i] <= tables[j]
    decreases j
  {
    if i < j {
      StepwiseSubset(tables, i, j - 1);
      assert tables[j - 1] <= tables[j - 1 + 1];
    }
  }

  function Occurrences<T(==)>(s: seq<T>, x: T): nat {
    multiset(s)[x]
  }

  lemma {:induction false} DescendingOnce(s: seq<Key>, key: Key)
    requires Descends(s)
    ensures Occurrences(s, key) == if key in s then 1 else 0
    decreases |s|
  {
    if s != [] {
      assert s == [s[0]] + s[1..];
      DescendingOnce(s[1..], key);
      if s[0] == key && key in s[1..] {
        var i :| 1 <= i < |s| && s[i] == key;
        LessTotal(s[i], s[0]);
      }
    }
  }

  /**
   Rows are only inserted between requests: following the cursors from the first page to the last returns every row
   that was there at the start exactly once, no row twice, and all in strictly descending order.
   */
  lemma CrawlIsComplete(tables: seq<set<Key>>, size: nat)
    requires size > 0 && InsertOnly(tables) && Ends(tables, None, size)
    ensures var all := Crawl(tables, None, size);
      && Descends(all)
      && (forall key :: Occurrences(all, key) <= 1)
      && (forall key :: key in tables[0] ==> Occurrences(all, key) == 1)
      && (forall key :: key in all ==> key in tables[|tables| - 1])
  {
    var all := Crawl(tables, None, size);
    CrawlDescends(tables, None, size);
    forall key ensures Occurrences(all, key) == if key in all then 1 else 0 {
      DescendingOnce(all, key);
    }
    forall key | key in tables[0] ensures key in all {
      CrawlFindsStayingRow(tables, None, size, key);
    }
  }

  // ---------- Crawling a fixed table ----------

  /** The pages of a crawl over a table that does not change. */
  ghost function Pages(rows: set<Key>, cursor: Option<Key>, size: nat): seq<seq<Key>>
    requires size > 0
    decreases |Below(rows, cursor)|
  {
    var page := PageOf(rows, cursor, size);
    if page.next.None? then [page.items]
    else (NextHasFewer(rows, cursor, size); [page.items] + Pages(rows, page.next, size))
  }

  /** The cursor of a page leaves exactly the rest of the listing below it. */
  lemma NextListing(rows: set<Key>, cursor: Option<Key>, size: nat)
    requires size > 0 && PageOf(rows, cursor, size).next.Some?
    ensures Listing(Below(rows, PageOf(rows, cursor, size).next)) == Listing(Below(rows, cursor))[size..]
  {
    var below := Below(rows, cursor);
    var all := Listing(below);
    ListingIsSorted(below);
    var last := all[size - 1];
    forall key ensures key in all[size..] <==> key in Below(rows, Some(last)) {
      RestIsBelow(all, size, key);
      assert last in below;
      if cursor.Some? && Less(key, last) {
        LessTransitive(key, last, cursor.value);
      }
    }
    ListingUnique(all[size..], Below(rows, Some(last)));
  }

  /** Of a descending sequence the elements after the n-th are those below it. */
  lemma RestIsBelow(s: seq<Key>, n: nat, key: Key)
    requires Descends(s) && 0 < n <= |s|
    ensures key in s[n..] <==> key in s && Less(key, s[n - 1])
  {
    SplitMembers(s, n, key);
    if key in s[..n] {
      var i :| 0 <= i < n && s[i] == key;
      LessTotal(key, s[n - 1]);
    }
    if key in s[n..] {
      var i :| n <= i < |s| && s[i] == key;
    }
  }

  lemma NextHasFewer(rows: set<Key>, cursor: Option<Key>, size: nat)
    requires size > 0 && PageOf(rows, cursor, size).next.Some?
    ensures |Below(rows, PageOf(rows, cursor, size).next)| == |Below(rows, cursor)| - size
  {
    NextListing(rows, cursor, size);
    ListingIsSorted(Below(rows, cursor));
    ListingIsSorted(Below(rows, PageOf(rows, cursor, size).next));
  }

  function Flatten<T>(pages: seq<seq<T>>): seq<T> {
    if pages == [] then [] else pages[0] + Flatten(pages[1..])
  }

  /** ceil(n / size), but at least 1. */
  function Requests(n: nat, size: nat): nat
    requires size > 0
  {
    if n == 0 then 1 else (n + size - 1) / size
  }

  lemma RequestsStep(n: nat, size: nat)
    requires size > 0
    ensures 0 < n <= size ==> Requests(n, size) == 1
    ensures n > size ==> Requests(n, size) == 1 + Requests(n - size, size)
  {
    if 0 < n <= size {
      DivModUnique(n + size - 1, 1, n - 1, size);
    } else if n > size {
      var q, r := (n - 1) / size, (n - 1) % size;
      DivMod(n - 1, size);
      MultipleGrows(q, size);
      DivModUnique(n + size - 1, q + 1, r, size);
    }
  }

  /** On a fixed table the pages put together are the whole listing. */
  lemma {:induction false} FixedCrawl(rows: set<Key>, cursor: Option<Key>, size: nat)
    requires size > 0
    ensures Flatten(Pages(rows, cursor, size)) == Listing(Below(rows, cursor))
    decreases |Below(rows, cursor)|
  {
    var next := PageOf(rows, cursor, size).next;
    PagesFlatten(rows, cursor, size);
    if next.Some? {
      NextHasFewer(rows, cursor, size);
      FixedCrawl(rows, next, size);
      PageAndRest(rows, cursor, size);
    }
  }

  lemma PagesFlatten(rows: set<Key>, cursor: Option<Key>, size: nat)
    requires size > 0
    ensures var page := PageOf(rows, cursor, size);
      Flatten(Pages(rows, cursor, size))
      == page.items + if page.next.Some? then Flatten(Pages(rows, page.next, size)) else []
  {
    var page := PageOf(rows, cursor, size);
    if page.next.Some? {
      OnePageMore(rows, cursor, size);
      FlattenFirst(page.items, Pages(rows, page.next, size));
    } else {
      FlattenFirst(page.items, []);
      assert Pages(rows, cursor, size) == [page.items] + [];
    }
  }

  lemma PageAndRest(rows: set<Key>, cursor: Option<Key>, size: nat)
    requires size > 0 && PageOf(rows, cursor, size).next.Some?
    ensures var page := PageOf(rows, cursor, size);
      Listing(Below(rows, cursor)) == page.items + Listing(Below(rows, page.next))
  {
    var all := Listing(Below(rows, cursor));
    NextListing(rows, cursor, size);
    assert all == all[..size] + all[size..];
  }

  lemma FlattenFirst<T>(page: seq<T>, rest: seq<seq<T>>)
    ensures Flatten([page] + rest) == page + Flatten(rest)
  {
    assert ([page] + rest)[1..] == rest;
  }

  function PageCount(n: nat, size: nat): nat
    requires size > 0
  {
    if n <= size then 1 else 1 + PageCount(n - size, size)
  }

  lemma {:induction false} PageCountIsCeiling(n: nat, size: nat)
    requires size > 0
    ensures PageCount(n, size) == Requests(n, size)
  {
    RequestsStep(n, size);
    if n > size {
      PageCountIsCeiling(n - size, size);
    }
  }

  lemma {:induction false} PagesAreCounted(rows: set<Key>, cursor: Option<Key>, size: nat)
    requires size > 0
    ensures |Pages(rows, cursor, size)| == PageCount(|Below(rows, cursor)|, size)
    decreases |Below(rows, cursor)|
  {
    NextExactlyWhenMore(rows, cursor, size);
    var page := PageOf(rows, cursor, size);
    if page.next.Some? {
      NextHasFewer(rows, cursor, size);
      PagesAreCounted(rows, page.next, size);
      OnePageMore(rows, cursor, size);
    }
  }

  lemma NextExactlyWhenMore(rows: set<Key>, cursor: Option<Key>, size: nat)
    requires size > 0
    ensures PageOf(rows, cursor, size).next.Some? <==> |Below(rows, cursor)| > size
  {
    ListingIsSorted(Below(rows, cursor));
  }

  lemma OnePageMore(rows: set<Key>, cursor: Option<Key>, size: nat)
    requires size > 0 && PageOf(rows, cursor, size).next.Some?
    ensures Pages(rows, cursor, size)
         == [PageOf(rows, cursor, size).items] + Pages(rows, PageOf(rows, cursor, size).next, size)
  {
  }

  /** That takes max(1, ceil(n / size)) requests. */
  lemma FixedCrawlLength(rows: set<Key>, cursor: Option<Key>, size: nat)
    requires size > 0
    ensures |Pages(rows, cursor, size)| == Requests(|Below(rows, cursor)|, size)
  {
    PagesAreCounted(rows, cursor, size);
    PageCountIsCeiling(|Below(rows, cursor)|, size);
  }

  // ---------- The page cut ----------

  /**
   The scan of a page query's rows: it asks for one row more than the page holds, and that row says that there is a
   next page.
   */
  method Collect<R>(rows: seq<R>, size: nat, key: R -> Key) returns (page: Page<R>)
    requires size > 0
    ensures page == if |rows| > size then Page(rows[..size], Some(key(rows[size - 1]))) else Page(rows, None)
  {
    var items: seq<R> := [];
    for n := 0 to |rows|
      invariant items == rows[..n]
    {
      items := items + [rows[n]];
    }
    var next := None;
    if |items| > size {
      next := Some(key(items[size - 1]));
      items := items[..size];
    }
    page := Page(items, next);
  }

  function KeysOf<R>(rows: seq<R>, key: R -> Key): (keys: seq<Key>)
    ensures |keys| == |rows| && forall i :: 0 <= i < |rows| ==> keys[i] == key(rows[i])
  {
    seq(|rows|, i requires 0 <= i < |rows| => key(rows[i]))
  }

  /** The cut of a query for one row more is the page. */
  lemma CutIsPage<R>(table: set<Key>, cursor: Option<Key>, size: nat, rows: seq<R>, key: R -> Key, page: Page<R>)
    requires size > 0 && KeysOf(rows, key) == Query(table, cursor, size + 1)
    requires page == if |rows| > size then Page(rows[..size], Some(key(rows[size - 1]))) else Page(rows, None)
    ensures Page(KeysOf(page.items, key), page.next) == PageOf(table, cursor, size)
  {
  }
}
