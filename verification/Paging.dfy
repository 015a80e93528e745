/**
 Reading the inbox: keyset pages with a bounded refill. `FindAll` follows the batches and the
 cursor of the service; the specification works on the listing sorted once, where a page is a
 contiguous stretch found by `Scan`.
 */
module Paging {
  import opened Prelude
  import opened Content

  /** A visible inbox row as paging sees it. */
  datatype Item = Item(id: int, at: int, eligible: bool)

  datatype Cursor = Cursor(user: UserId, at: int, id: int)

  datatype ReadError = InvalidLimit | ForeignCursor | InvalidCursor

  datatype Page = Page(items: seq<Item>, nextCursor: Option<Cursor>, hasMore: bool, scanned: int)

  /** ORDER BY lastEventAt DESC, id DESC. */
  predicate Precedes(a: Item, b: Item) {
    a.at > b.at || (a.at == b.at && a.id > b.id)
  }

  /** Newer, or of the same time with the greater id. */
  predicate NewerFirst(a: Item, b: Item) {
    b.at < a.at || (a.at == b.at && b.id < a.id)
  }

  predicate Sorted(view: seq<Item>) {
    forall i, j :: 0 <= i < j < |view| ==> Precedes(view[i], view[j])
  }

  predicate UniqueIds(table: set<Item>) {
    forall a, b :: a in table && b in table && a.id == b.id ==> a == b
  }

  predicate IsFirst(table: set<Item>, x: Item) {
    x in table && forall y :: y in table && y != x ==> Precedes(x, y)
  }

  /** The whole table in order: its first row, then the rest of the table in order. */
  predicate Lists(view: seq<Item>, table: set<Item>) {
    if view == [] then table == {} else IsFirst(table, view[0]) && Lists(view[1..], table - {view[0]})
  }

  lemma {:induction false} ListingIsSorted(view: seq<Item>, table: set<Item>)
    requires Lists(view, table)
    ensures Sorted(view) && forall x :: x in view <==> x in table
  {
    if view != [] {
      ListingIsSorted(view[1..], table - {view[0]});
      forall i, j | 0 <= i < j < |view| ensures Precedes(view[i], view[j]) {
        assert view[j] == view[1..][j - 1] && view[j] in view[1..];
      }
      assert view == [view[0]] + view[1..];
    }
  }

  predicate After(x: Item, cursor: Option<Cursor>) {
    cursor.None? || x.at < cursor.value.at || (x.at == cursor.value.at && x.id < cursor.value.id)
  }

  function RowsAfter(table: set<Item>, cursor: Option<Cursor>): set<Item> {
    set x | x in table && After(x, cursor)
  }

  /** The answer of one batch query: the first `take` rows after the cursor. */
  predicate IsBatch(table: set<Item>, cursor: Option<Cursor>, take: nat, rows: seq<Item>) {
    IsFirstRows(RowsAfter(table, cursor), take, rows)
  }

  predicate IsFirstRows(rest: set<Item>, take: nat, rows: seq<Item>) {
    && |rows| == Min(take, |rest|)
    && Sorted(rows)
    && (forall x :: x in rows ==> x in rest)
    && (forall x, i :: x in rest && x !in rows && 0 <= i < |rows| ==> Precedes(rows[i], x))
  }

  // ----- specification -----

  function Eligibles(view: seq<Item>): seq<Item> {
    if view == [] then []
    else (if view[0].eligible then [view[0]] else []) + Eligibles(view[1..])
  }

  /** Where a page starting at `p` stops: after `limit` eligible rows, `budget` rows, or the last row. */
  function Scan(view: seq<Item>, p: nat, limit: nat, budget: nat): (q: nat)
    requires p <= |view|
    ensures p <= q <= |view| && q - p <= budget
    ensures limit > 0 && budget > 0 && p < |view| ==> p < q
    decreases |view| - p
  {
    if p == |view| || limit == 0 || budget == 0 then p
    else Scan(view, p + 1, if view[p].eligible then limit - 1 else limit, budget - 1)
  }

  /** How many rows the cursor has passed. */
  function Offset(view: seq<Item>, cursor: Option<Cursor>): (p: nat)
    ensures p <= |view|
  {
    if view == [] || After(view[0], cursor) then 0 else 1 + Offset(view[1..], cursor)
  }

  lemma {:induction false} OffsetSplits(view: seq<Item>, cursor: Option<Cursor>)
    requires Sorted(view)
    ensures forall i :: 0 <= i < |view| ==> (After(view[i], cursor) <==> Offset(view, cursor) <= i)
  {
    if view != [] {
      if After(view[0], cursor) {
        forall i | 0 < i < |view| ensures After(view[i], cursor) {
          assert Precedes(view[0], view[i]);
        }
      } else {
        OffsetSplits(view[1..], cursor);
        forall i | 0 < i < |view| ensures After(view[i], cursor) <==> Offset(view, cursor) <= i {
          assert view[i] == view[1..][i - 1];
        }
      }
    }
  }

  function CursorAt(user: UserId, x: Item): Option<Cursor> {
    Some(Cursor(user, x.at, x.id))
  }

  /** A cursor taken from row `q - 1` resumes exactly at row `q`. */
  lemma CursorResumes(view: seq<Item>, q: nat, user: UserId)
    requires Sorted(view) && 0 < q <= |view|
    ensures Offset(view, CursorAt(user, view[q - 1])) == q
  {
    var cursor := CursorAt(user, view[q - 1]);
    OffsetSplits(view, cursor);
    assert !After(view[q - 1], cursor);
    if q < |view| { assert Precedes(view[q - 1], view[q]); }
  }

  /** The batch query reads the stretch of the listing that starts at the cursor. */
  lemma BatchIsStretch(table: set<Item>, view: seq<Item>, cursor: Option<Cursor>, take: nat, rows: seq<Item>)
    requires Lists(view, table) && IsBatch(table, cursor, take, rows)
    ensures var p := Offset(view, cursor); rows == view[p..Min(p + take, |view|)]
  {
    ListingIsSorted(view, table);
    StretchOfBatch(table, view, cursor, take, rows);
  }

  lemma StretchOfBatch(table: set<Item>, view: seq<Item>, cursor: Option<Cursor>, take: nat, rows: seq<Item>)
    requires Sorted(view) && (forall x :: x in view <==> x in table) && IsBatch(table, cursor, take, rows)
    ensures var p := Offset(view, cursor); rows == view[p..Min(p + take, |view|)]
  {
    TailIsRest(table, view, cursor);
    StretchOfTail(view, Offset(view, cursor), RowsAfter(table, cursor), take, rows);
  }

  lemma StretchOfTail(view: seq<Item>, p: nat, rest: set<Item>, take: nat, rows: seq<Item>)
    requires p <= |view| && Sorted(view[p..]) && (forall x :: x in view[p..] <==> x in rest)
    requires IsFirstRows(rest, take, rows)
    ensures rows == view[p..Min(p + take, |view|)]
  {
    var tail := view[p..];
    FirstRowsOfTail(tail, rest, take, rows);
    assert tail[..|rows|] == view[p..p + |rows|];
  }

  lemma FirstRowsOfTail(tail: seq<Item>, rest: set<Item>, take: nat, rows: seq<Item>)
    requires Sorted(tail) && (forall x :: x in tail <==> x in rest) && IsFirstRows(rest, take, rows)
    ensures |rows| == Min(take, |tail|) && rows == tail[..|rows|]
  {
    SortedLength(tail, rest);
    FirstOfSorted(tail, rest, rows);
  }

  lemma TailIsRest(table: set<Item>, view: seq<Item>, cursor: Option<Cursor>)
    requires Sorted(view) && forall x :: x in view <==> x in table
    ensures forall x :: x in view[Offset(view, cursor)..] <==> x in RowsAfter(table, cursor)
    ensures Sorted(view[Offset(view, cursor)..])
  {
    var p := Offset(view, cursor);
    OffsetSplits(view, cursor);
    forall x ensures x in view[p..] <==> x in RowsAfter(table, cursor) {
      if x in view[p..] { var i :| 0 <= i < |view[p..]| && view[p..][i] == x; assert view[p + i] == x; }
      if x in RowsAfter(table, cursor) { var i :| 0 <= i < |view| && view[i] == x; assert view[p..][i - p] == x; }
    }
  }

  lemma {:induction false} SortedLength(view: seq<Item>, s: set<Item>)
    requires Sorted(view) && forall x :: x in view <==> x in s
    ensures |view| == |s|
    decreases view
  {
    if view == [] {
      assert s == {};
    } else {
      var rest := s - {view[0]};
      forall x ensures x in view[1..] <==> x in rest {
        if x in view[1..] { var i :| 0 <= i < |view[1..]| && view[1..][i] == x; assert Precedes(view[0], view[i + 1]); }
      }
      SortedLength(view[1..], rest);
    }
  }

  lemma {:induction false} FirstOfSorted(tail: seq<Item>, rest: set<Item>, rows: seq<Item>)
    requires Sorted(tail) && (forall x :: x in tail <==> x in rest)
    requires Sorted(rows) && |rows| <= |tail| && (forall x :: x in rows ==> x in rest)
    requires forall x, i :: x in rest && x !in rows && 0 <= i < |rows| ==> Precedes(rows[i], x)
    ensures rows == tail[..|rows|]
    decreases rows
  {
    if rows != [] {
      var a, b := rows[0], tail[0];
      assert a in tail && b in rest;
      assert a == b;
      var rest' := rest - {a};
      forall x ensures x in tail[1..] <==> x in rest' {
        if x in tail[1..] { var i :| 0 <= i < |tail[1..]| && tail[1..][i] == x; assert Precedes(tail[0], tail[i + 1]); }
      }
      forall x | x in rows[1..] ensures x in rest' {
        var i :| 0 <= i < |rows[1..]| && rows[1..][i] == x;
        assert Precedes(rows[0], rows[i + 1]);
      }
      FirstOfSorted(tail[1..], rest', rows[1..]);
      assert tail[1..][..|rows| - 1] == tail[..|rows|][1..];
    }
  }

  lemma {:induction false} ListingExists(table: set<Item>) returns (view: seq<Item>)
    requires UniqueIds(table)
    ensures Lists(view, table)
    decreases |table|
  {
    if table == {} {
      view := [];
    } else {
      var first := FirstExists(table);
      var rest := ListingExists(table - {first});
      view := [first] + rest;
      assert view[1..] == rest;
    }
  }

  lemma {:induction false} FirstExists(table: set<Item>) returns (first: Item)
    requires UniqueIds(table) && table != {}
    ensures IsFirst(table, first)
    decreases |table|
  {
    var x := Member(table);
    var rest := table - {x};
    first := x;
    assert forall y :: y in table ==> y == x || y in rest;
    if rest != {} {
      var y := FirstExists(rest);
      assert x.id != y.id;
      if Precedes(y, x) { first := y; }
    }
  }

  lemma {:induction false} EligiblesAppend(a: seq<Item>, x: Item)
    ensures Eligibles(a + [x]) == Eligibles(a) + (if x.eligible then [x] else [])
  {
    if a == [] {
      assert Eligibles([x]) == (if x.eligible then [x] else []) + Eligibles([]);
    } else {
      var head, tail := if a[0].eligible then [a[0]] else [], if x.eligible then [x] else [];
      assert (a + [x])[0] == a[0] && (a + [x])[1..] == a[1..] + [x];
      EligiblesAppend(a[1..], x);
      assert head + (Eligibles(a[1..]) + tail) == (head + Eligibles(a[1..])) + tail;
    }
  }

  lemma {:induction false} EligiblesConcat(a: seq<Item>, b: seq<Item>)
    ensures Eligibles(a + b) == Eligibles(a) + Eligibles(b)
  {
    if a == [] {
      assert a + b == b;
    } else {
      var head := if a[0].eligible then [a[0]] else [];
      assert (a + b)[0] == a[0] && (a + b)[1..] == a[1..] + b;
      EligiblesConcat(a[1..], b);
      assert head + (Eligibles(a[1..]) + Eligibles(b)) == (head + Eligibles(a[1..])) + Eligibles(b);
    }
  }

  /** A page holds at most `limit` items, and stops early only when it has to. */
  lemma {:induction false} ScanFillsPage(view: seq<Item>, p: nat, limit: nat, budget: nat)
    requires p <= |view|
    ensures var q := Scan(view, p, limit, budget);
            && |Eligibles(view[p..q])| <= limit
            && (q == |view| || q - p == budget || |Eligibles(view[p..q])| == limit)
    decreases |view| - p
  {
    if p < |view| && limit > 0 && budget > 0 {
      var left := if view[p].eligible then limit - 1 else limit;
      ScanFillsPage(view, p + 1, left, budget - 1);
      var q := Scan(view, p, limit, budget);
      assert view[p..q][1..] == view[p + 1..q];
    } else {
      assert view[p..p] == [];
    }
  }

  /** What following the cursor yields: the page a cursor asks for, then the pages its next cursor asks for. */
  function Follow(view: seq<Item>, user: UserId, cursor: Option<Cursor>, limit: nat): seq<Item>
    requires Sorted(view) && limit > 0
    decreases |view| - Offset(view, cursor)
  {
    var p := Offset(view, cursor);
    var q := Scan(view, p, limit, 5 * limit);
    if q < |view| then
      CursorResumes(view, q, user);
      Eligibles(view[p..q]) + Follow(view, user, CursorAt(user, view[q - 1]), limit)
    else Eligibles(view[p..q])
  }

  /** Following any cursor misses nothing and repeats nothing: it yields the rest of the listing, filtered, in order. */
  lemma {:induction false} FollowReturnsTheRest(view: seq<Item>, user: UserId, cursor: Option<Cursor>, limit: nat)
    requires Sorted(view) && limit > 0
    ensures Follow(view, user, cursor, limit) == Eligibles(view[Offset(view, cursor)..])
    decreases |view| - Offset(view, cursor)
  {
    var p := Offset(view, cursor);
    var q := Scan(view, p, limit, 5 * limit);
    SplitEligibles(view, p, q);
    if q < |view| {
      CursorResumes(view, q, user);
      FollowReturnsTheRest(view, user, CursorAt(user, view[q - 1]), limit);
    } else {
      assert Eligibles(view[q..]) == [];
    }
  }

  lemma SplitEligibles(view: seq<Item>, p: nat, q: nat)
    requires p <= q <= |view|
    ensures Eligibles(view[p..]) == Eligibles(view[p..q]) + Eligibles(view[q..])
  {
    assert view[p..] == view[p..q] + view[q..];
    EligiblesConcat(view[p..q], view[q..]);
  }

  lemma {:induction false} EligiblesKeepOrder(view: seq<Item>)
    requires Sorted(view)
    ensures Sorted(Eligibles(view))
    ensures forall x :: x in Eligibles(view) <==> x in view && x.eligible
  {
    if view != [] {
      EligiblesKeepOrder(view[1..]);
      var rest := Eligibles(view[1..]);
      forall x | x in rest ensures Precedes(view[0], x) {
        assert x in view[1..];
        var i :| 0 <= i < |view[1..]| && view[1..][i] == x;
        assert view[i + 1] == x;
      }
      assert view == [view[0]] + view[1..];
    }
  }

  /** The eligible listing holds every visible eligible item exactly once, newest first. */
  lemma EligibleListing(table: set<Item>, view: seq<Item>)
    requires Lists(view, table)
    ensures var all := Eligibles(view);
      && (forall i, j :: 0 <= i < j < |all| ==> NewerFirst(all[i], all[j]) && all[i] != all[j])
      && (forall x :: x in all <==> x in table && x.eligible)
  {
    ListingIsSorted(view, table);
    EligiblesKeepOrder(view);
  }

  /** From the first page on, following the cursor gives every visible eligible item exactly once, newest first. */
  lemma FollowIsComplete(table: set<Item>, view: seq<Item>, user: UserId, limit: nat)
    requires Lists(view, table) && limit > 0
    ensures Sorted(view)
    ensures var all := Follow(view, user, None, limit);
      && (forall i, j :: 0 <= i < j < |all| ==> NewerFirst(all[i], all[j]) && all[i] != all[j])
      && (forall x :: x in all <==> x in table && x.eligible)
  {
    ListingIsSorted(view, table);
    FollowReturnsTheRest(view, user, None, limit);
    NoCursorStartsAtTop(view);
    assert view[0..] == view;
    EligibleListing(table, view);
  }

  lemma NoCursorStartsAtTop(view: seq<Item>)
    ensures Offset(view, None) == 0
  {
  }

  // ----- the service -----

  /** The batch query as the database answers it. */
  method QueryBatch(table: set<Item>, cursor: Option<Cursor>, take: nat) returns (rows: seq<Item>)
    requires UniqueIds(table)
    ensures IsBatch(table, cursor, take, rows)
  {
    var rest := RowsAfter(table, cursor);
    var pool := rest;
    rows := [];
    while |rows| < take && pool != {}
      invariant pool == rest - (set x | x in rows) && |rows| + |pool| == |rest| && |rows| <= take
      invariant IsFirstRows(rest, |rows|, rows)
      decreases |pool|
    {
      ghost var first := FirstExists(pool);
      var x :| x in pool && IsFirst(pool, x);
      AppendFirst(rest, rows, x);
      rows, pool := rows + [x], pool - {x};
    }
  }

  lemma AppendFirst(rest: set<Item>, rows: seq<Item>, x: Item)
    requires IsFirstRows(rest, |rows|, rows) && IsFirst(rest - (set y | y in rows), x)
    requires |rows| < |rest|
    ensures IsFirstRows(rest, |rows| + 1, rows + [x])
  {
    var longer := rows + [x];
    forall y, i | y in rest && y !in longer && 0 <= i < |longer| ensures Precedes(longer[i], y) {
      assert y !in rows && y != x;
      if i < |rows| { assert Precedes(rows[i], y); }
    }
  }

  /** The eligible rows among the `n` rows from `p` on, collected one row at a time. */
  function Collected(view: seq<Item>, p: nat, n: nat): seq<Item>
    requires p + n <= |view|
  {
    if n == 0 then [] else Collected(view, p, n - 1) + (if view[p + n - 1].eligible then [view[p + n - 1]] else [])
  }

  lemma {:induction false} CollectedAreEligibles(view: seq<Item>, p: nat, n: nat)
    requires p + n <= |view|
    ensures Collected(view, p, n) == Eligibles(view[p..p + n])
  {
    if n == 0 {
      assert view[p..p] == [];
    } else {
      var init, last := view[p..p + n - 1], view[p + n - 1];
      CollectedAreEligibles(view, p, n - 1);
      EligiblesAppend(init, last);
      assert view[p..p + n] == init + [last];
    }
  }

  /** What has been read after `scanned` rows of a page that started at `p` and will end at `q`. */
  ghost predicate Progress(view: seq<Item>, p: nat, q: nat, limit: nat, scanned: nat, items: seq<Item>, user: UserId,
                           position: Option<Cursor>) {
    && OnCourse(view, p, q, limit, scanned, items)
    && StandsAt(view, p, scanned, user, position)
  }

  /** The items are the eligible rows read, not too many, and the page will still end at `q`. */
  ghost predicate OnCourse(view: seq<Item>, p: nat, q: nat, limit: nat, scanned: nat, items: seq<Item>) {
    && p + scanned <= |view| && scanned <= 5 * limit && |items| <= limit
    && items == Collected(view, p, scanned)
    && q == Scan(view, p + scanned, limit - |items|, 5 * limit - scanned)
  }

  /** The position is that of the last row read. */
  ghost predicate StandsAt(view: seq<Item>, p: nat, scanned: nat, user: UserId, position: Option<Cursor>) {
    scanned > 0 ==> p + scanned <= |view| && position == CursorAt(user, view[p + scanned - 1])
  }

  lemma PositionIsProgress(table: set<Item>, view: seq<Item>, p: nat, scanned: nat, user: UserId,
                           cursor: Option<Cursor>, position: Option<Cursor>)
    requires Lists(view, table) && p == Offset(view, cursor) && p + scanned <= |view|
    requires if scanned == 0 then position == cursor else position == CursorAt(user, view[p + scanned - 1])
    ensures Offset(view, position) == p + scanned
  {
    if scanned > 0 {
      ListingIsSorted(view, table);
      CursorResumes(view, p + scanned, user);
    }
  }

  /** findAll, up to the presentation of actors. `view` is the listing, used only to state the result. */
  method FindAll(table: set<Item>, ghost view: seq<Item>, user: UserId, limit: int, cursor: Option<Cursor>)
    returns (result: Result<Page, ReadError>)
    requires UniqueIds(table) && Lists(view, table)
    ensures result == Err(InvalidLimit) <==> !(1 <= limit <= 100)
    ensures result == Err(ForeignCursor) <==> 1 <= limit <= 100 && cursor.Some? && cursor.value.user != user
    ensures result == Err(InvalidCursor) <==>
              1 <= limit <= 100 && cursor.Some? && cursor.value.user == user && cursor.value.id < 1
    ensures result.Ok? <==> 1 <= limit <= 100 && (cursor.Some? ==> cursor.value.user == user && cursor.value.id >= 1)
    ensures result.Ok? ==> IsPage(view, user, limit, cursor, result.value)
  {
    if limit < 1 || limit > 100 { return Err(InvalidLimit); }
    if cursor.Some? {
      if cursor.value.user != user { return Err(ForeignCursor); }
      if cursor.value.id < 1 { return Err(InvalidCursor); }
    }
    ghost var p := Offset(view, cursor);
    var items, last, hasMore, scanned := ReadPage(table, view, p, user, limit, cursor);
    CollectedAreEligibles(view, p, scanned);
    var nextCursor := if hasMore then last else None;
    result := Ok(Page(items, nextCursor, hasMore, scanned));
  }

  /** What an answered request states: the page from the cursor on, and the cursor of the page after it. */
  ghost predicate IsPage(view: seq<Item>, user: UserId, limit: nat, cursor: Option<Cursor>, page: Page) {
    var p := Offset(view, cursor);
    var q := Scan(view, p, limit, 5 * limit);
    && page.items == Eligibles(view[p..q])
    && page.scanned == q - p
    && page.hasMore == (q < |view|)
    && page.nextCursor == if 0 < q < |view| then CursorAt(user, view[q - 1]) else None
  }

  /** The row comes after the one the cursor was taken from; without a cursor every row does. */
  predicate Beyond(x: Item, cursor: Option<Cursor>) {
    cursor == None || NewerFirst(Item(cursor.value.id, cursor.value.at, false), x)
  }

  /**
   What a page says about the table: eligible rows beyond the cursor, newest first, none of them left
   out before another that is shown; if no page follows, none left out at all. A page with room left
   that says there is more has looked at five times as many rows as were asked for.
   */
  lemma PageMeaning(table: set<Item>, view: seq<Item>, user: UserId, limit: nat, cursor: Option<Cursor>, page: Page)
    requires Lists(view, table) && limit > 0 && IsPage(view, user, limit, cursor, page)
    ensures |page.items| <= limit && (page.hasMore && |page.items| < limit ==> page.scanned == 5 * limit)
    ensures forall i, j :: 0 <= i < j < |page.items| ==> NewerFirst(page.items[i], page.items[j])
    ensures forall x :: x in page.items ==> x in table && x.eligible && Beyond(x, cursor)
    ensures forall x :: x in table && x.eligible && Beyond(x, cursor) && x !in page.items ==>
              page.hasMore && forall y :: y in page.items ==> NewerFirst(y, x)
    ensures page.hasMore <==> page.nextCursor.Some?
    ensures page.nextCursor.Some? ==> page.nextCursor.value.user == user
    ensures page.nextCursor.Some? ==> forall x :: x in table && x.eligible && Beyond(x, cursor) ==>
              (x in page.items <==> !Beyond(x, page.nextCursor))
  {
    var p := Offset(view, cursor);
    var q := Scan(view, p, limit, 5 * limit);
    ListingIsSorted(view, table);
    ScanFillsPage(view, p, limit, 5 * limit);
    EligiblesKeepOrder(view[p..q]);
    forall x | x in page.items ensures x in table && x.eligible && Beyond(x, cursor) {
      assert x in view[p..q] && x in view;
      var k := PlaceOf(table, view, user, limit, cursor, page, x);
    }
    forall x | x in table && x.eligible && Beyond(x, cursor)
      ensures x !in page.items ==> page.hasMore && forall y :: y in page.items ==> NewerFirst(y, x)
      ensures page.nextCursor.Some? ==> (x in page.items <==> !Beyond(x, page.nextCursor))
    {
      var k := PlaceOf(table, view, user, limit, cursor, page, x);
      forall y | x !in page.items && y in page.items ensures NewerFirst(y, x) {
        var j := PlaceOf(table, view, user, limit, cursor, page, y);
        assert Precedes(view[j], view[k]);
      }
    }
  }

  /** The rows beyond a cursor are those at its offset and after. */
  lemma BeyondIsBehind(view: seq<Item>, cursor: Option<Cursor>, k: nat)
    requires Sorted(view) && k < |view|
    ensures Beyond(view[k], cursor) <==> Offset(view, cursor) <= k
  {
    OffsetSplits(view, cursor);
    assert Beyond(view[k], cursor) <==> After(view[k], cursor);
  }

  lemma OnStretch(view: seq<Item>, p: nat, q: nat, k: nat)
    requires Sorted(view) && p <= q <= |view| && k < |view|
    ensures view[k] in Eligibles(view[p..q]) <==> p <= k < q && view[k].eligible
  {
    var part := view[p..q];
    EligiblesKeepOrder(part);
    if view[k] in part {
      var i :| 0 <= i < |part| && part[i] == view[k];
      assert view[p + i] == view[k];
      assert p + i == k;
    }
    if p <= k < q { assert part[k - p] == view[k]; }
  }

  /** Where a row stands in the listing says whether it is beyond the cursor, on the page, or still to come. */
  lemma PlaceOf(table: set<Item>, view: seq<Item>, user: UserId, limit: nat, cursor: Option<Cursor>, page: Page,
                x: Item) returns (k: nat)
    requires Lists(view, table) && limit > 0 && IsPage(view, user, limit, cursor, page) && x in table
    ensures k < |view| && view[k] == x
    ensures var p := Offset(view, cursor); var q := Scan(view, p, limit, 5 * limit);
      && (Beyond(x, cursor) <==> p <= k) && (x in page.items <==> p <= k < q && x.eligible)
      && (page.nextCursor.Some? ==> (Beyond(x, page.nextCursor) <==> q <= k))
  {
    ListingIsSorted(view, table);
    k :| 0 <= k < |view| && view[k] == x;
    var p := Offset(view, cursor);
    var q := Scan(view, p, limit, 5 * limit);
    BeyondIsBehind(view, cursor, k);
    OnStretch(view, p, q, k);
    if page.nextCursor.Some? {
      CursorResumes(view, q, user);
      BeyondIsBehind(view, page.nextCursor, k);
    }
  }

  /** What is still to come from a cursor on; nothing once there is no next page. */
  ghost function Remaining(view: seq<Item>, cursor: Option<Cursor>, more: bool): seq<Item> {
    if more then Eligibles(view[Offset(view, cursor)..]) else []
  }

  /** One page of the walk: what was found so far and the page add up, and the next cursor stands further on. */
  lemma NextPage(view: seq<Item>, user: UserId, limit: nat, cursor: Option<Cursor>, page: Page)
    requires Sorted(view) && limit > 0 && IsPage(view, user, limit, cursor, page)
    ensures Remaining(view, cursor, true) == page.items + Remaining(view, page.nextCursor, page.nextCursor.Some?)
    ensures page.nextCursor.Some? ==>
              page.nextCursor.value.user == user && Offset(view, cursor) < Offset(view, page.nextCursor)
  {
    var p := Offset(view, cursor);
    var q := Scan(view, p, limit, 5 * limit);
    SplitEligibles(view, p, q);
    if q < |view| {
      CursorResumes(view, q, user);
    } else {
      assert Eligibles(view[q..]) == [];
    }
  }

  /** The cursors a reader of this inbox holds. */
  predicate OwnCursor(user: UserId, cursor: Option<Cursor>) {
    cursor.Some? ==> cursor.value.user == user && cursor.value.id >= 1
  }

  /** `all` and what remains after the cursor make up the eligible listing. */
  ghost predicate FoundSoFar(view: seq<Item>, all: seq<Item>, cursor: Option<Cursor>, more: bool) {
    Eligibles(view) == all + Remaining(view, cursor, more)
  }

  lemma PageTaken(table: set<Item>, view: seq<Item>, user: UserId, limit: nat, cursor: Option<Cursor>, page: Page,
                  all: seq<Item>)
    requires Lists(view, table) && limit > 0 && IsPage(view, user, limit, cursor, page)
    requires forall x :: x in table ==> x.id >= 1
    requires FoundSoFar(view, all, cursor, true)
    ensures FoundSoFar(view, all + page.items, page.nextCursor, page.nextCursor.Some?)
    ensures OwnCursor(user, page.nextCursor)
    ensures page.nextCursor.Some? ==> Offset(view, cursor) < Offset(view, page.nextCursor)
  {
    ListingIsSorted(view, table);
    NextPage(view, user, limit, cursor, page);
    var rest := Remaining(view, page.nextCursor, page.nextCursor.Some?);
    assert all + (page.items + rest) == (all + page.items) + rest;
    if page.nextCursor.Some? {
      assert view[Scan(view, Offset(view, cursor), limit, 5 * limit) - 1] in view;
    }
  }

  lemma AllRemains(view: seq<Item>)
    ensures FoundSoFar(view, [], None, true)
  {
    NoCursorStartsAtTop(view);
    assert view[0..] == view;
  }

  /** One more call of findAll. */
  method TakePage(table: set<Item>, ghost view: seq<Item>, user: UserId, limit: int, cursor: Option<Cursor>,
                  all: seq<Item>)
    returns (found: seq<Item>, next: Option<Cursor>)
    requires UniqueIds(table) && Lists(view, table) && 1 <= limit <= 100 && OwnCursor(user, cursor)
    requires (forall x :: x in table ==> x.id >= 1) && FoundSoFar(view, all, cursor, true)
    ensures FoundSoFar(view, found, next, next.Some?) && OwnCursor(user, next)
    ensures next.Some? ==> Offset(view, cursor) < Offset(view, next)
  {
    var result := FindAll(table, view, user, limit, cursor);
    PageTaken(table, view, user, limit, cursor, result.value, all);
    found, next := all + result.value.items, result.value.nextCursor;
  }

  /**
   A reader who calls findAll again with every next cursor until it is null. The inbox does not change
   meanwhile and its ids start at 1, as generated keys do, so no cursor is refused as malformed; every call
   succeeds, the calls end, and the pages together are the eligible listing.
   */
  method FollowCursor(table: set<Item>, ghost view: seq<Item>, user: UserId, limit: int) returns (all: seq<Item>)
    requires UniqueIds(table) && Lists(view, table) && 1 <= limit <= 100
    requires forall x :: x in table ==> x.id >= 1
    ensures all == Eligibles(view)
    ensures forall i, j :: 0 <= i < j < |all| ==> NewerFirst(all[i], all[j]) && all[i] != all[j]
    ensures forall x :: x in all <==> x in table && x.eligible
  {
    AllRemains(view);
    var cursor: Option<Cursor>;
    all, cursor := TakePage(table, view, user, limit, None, []);
    while cursor.Some?
      invariant FoundSoFar(view, all, cursor, cursor.Some?) && OwnCursor(user, cursor)
      decreases cursor.Some?, |view| - Offset(view, cursor)
    {
      all, cursor := TakePage(table, view, user, limit, cursor, all);
    }
    EligibleListing(table, view);
  }

  /** The refill loop: batches until the page is full, the budget is spent or the inbox ends. */
  method ReadPage(table: set<Item>, ghost view: seq<Item>, ghost p: nat, user: UserId, limit: nat,
                  cursor: Option<Cursor>)
    returns (pageItems: seq<Item>, position: Option<Cursor>, hasMore: bool, scanned: nat)
    requires UniqueIds(table) && Lists(view, table) && limit >= 1 && p == Offset(view, cursor)
    ensures p + scanned == Scan(view, p, limit, 5 * limit)
    ensures pageItems == Collected(view, p, scanned)
    ensures hasMore == (p + scanned < |view|)
    ensures hasMore ==> scanned > 0 && position == CursorAt(user, view[p + scanned - 1])
  {
    pageItems, position, hasMore, scanned := [], cursor, false, 0;
    var scanBudget := limit * 5;
    ghost var q := Scan(view, p, limit, 5 * limit);
    PageStarts(view, p, limit, user, cursor);
    while |pageItems| < limit && scanned < scanBudget
      invariant Progress(view, p, q, limit, scanned, pageItems, user, position)
      invariant scanned == 0 ==> position == cursor
      invariant scanned > 0 ==> hasMore == (p + scanned < |view|)
      decreases scanBudget - scanned
    {
      var batchSize := Min(limit, scanBudget - scanned);
      var consumed: nat;
      consumed, pageItems, position, hasMore :=
        ReadBatch(table, view, p, q, user, limit, cursor, scanned, pageItems, position, batchSize);
      scanned := scanned + consumed;
      if !hasMore {
        break;
      }
    }
    PageEnds(view, p, q, limit, scanned, pageItems);
  }

  lemma PageStarts(view: seq<Item>, p: nat, limit: nat, user: UserId, cursor: Option<Cursor>)
    requires p <= |view|
    ensures Progress(view, p, Scan(view, p, limit, 5 * limit), limit, 0, [], user, cursor)
  {
  }

  /** A page that is full, has used up its budget or has reached the last row ends where it was to end. */
  lemma PageEnds(view: seq<Item>, p: nat, q: nat, limit: nat, scanned: nat, items: seq<Item>)
    requires OnCourse(view, p, q, limit, scanned, items)
    requires |items| >= limit || scanned >= 5 * limit || p + scanned == |view|
    ensures q == p + scanned
  {
  }

  /** The batch after what has been scanned so far is the next stretch of the listing. */
  lemma BatchContinues(table: set<Item>, view: seq<Item>, p: nat, scanned: nat, user: UserId, cursor: Option<Cursor>,
                       position: Option<Cursor>, take: nat, rows: seq<Item>)
    requires Lists(view, table) && p == Offset(view, cursor) && p + scanned <= |view|
    requires if scanned == 0 then position == cursor else position == CursorAt(user, view[p + scanned - 1])
    requires IsBatch(table, position, take, rows)
    ensures IsStretch(view, p + scanned, rows) && |rows| == Min(take, |view| - (p + scanned))
  {
    PositionIsProgress(table, view, p, scanned, user, cursor, position);
    BatchIsStretch(table, view, position, take, rows);
  }

  method NextRows(table: set<Item>, ghost view: seq<Item>, ghost p: nat, user: UserId, ghost cursor: Option<Cursor>,
                  ghost scanned: nat, position: Option<Cursor>, take: nat) returns (rows: seq<Item>)
    requires UniqueIds(table) && Lists(view, table) && p == Offset(view, cursor) && p + scanned <= |view|
    requires if scanned == 0 then position == cursor else position == CursorAt(user, view[p + scanned - 1])
    ensures IsStretch(view, p + scanned, rows) && |rows| == Min(take, |view| - (p + scanned))
  {
    rows := QueryBatch(table, position, take);
    BatchContinues(table, view, p, scanned, user, cursor, position, take, rows);
  }

  /** One batch of the refill loop: query, then consume. */
  method ReadBatch(table: set<Item>, ghost view: seq<Item>, ghost p: nat, ghost q: nat, user: UserId, limit: nat,
                   ghost cursor: Option<Cursor>, ghost scanned: nat, pageItems: seq<Item>, position: Option<Cursor>,
                       batchSize: nat)
    returns (consumed: nat, items: seq<Item>, last: Option<Cursor>, more: bool)
    requires UniqueIds(table) && Lists(view, table) && p == Offset(view, cursor)
    requires Progress(view, p, q, limit, scanned, pageItems, user, position)
    requires scanned == 0 ==> position == cursor
    requires |pageItems| < limit && 0 < batchSize && scanned + batchSize <= 5 * limit
    ensures Progress(view, p, q, limit, scanned + consumed, items, user, last)
    ensures consumed == 0 ==> last == position && p + scanned == |view|
    ensures more == (p + scanned + consumed < |view|)
  {
    var candidates := NextRows(table, view, p, user, cursor, scanned, position, batchSize + 1);
    consumed, items, last := ConsumeBatch(user, limit, pageItems, position, candidates, batchSize);
    ConsumedIsProgress(view, p, q, limit, scanned, pageItems, user, position, candidates, consumed, scanned + consumed);
    more := |candidates| > consumed;
  }

  predicate IsStretch(view: seq<Item>, from: nat, rows: seq<Item>) {
    from + |rows| <= |view| && rows == view[from..from + |rows|]
  }

  lemma StretchRow(view: seq<Item>, from: nat, rows: seq<Item>, i: nat)
    requires IsStretch(view, from, rows) && i < |rows|
    ensures rows[i] == view[from + i]
  {
  }

  /** The page after the first n candidates of a batch. */
  function Taken(pageItems: seq<Item>, candidates: seq<Item>, n: nat): seq<Item>
    requires n <= |candidates|
  {
    if n == 0 then pageItems
    else
      var items := Taken(pageItems, candidates, n - 1);
      if candidates[n - 1].eligible then items + [candidates[n - 1]] else items
  }

  /** Taking a batch off the listing collects its eligible rows. */
  lemma {:induction false} TakenIsCollected(view: seq<Item>, p: nat, scanned: nat, candidates: seq<Item>, n: nat)
    requires IsStretch(view, p + scanned, candidates) && n <= |candidates|
    ensures Taken(Collected(view, p, scanned), candidates, n) == Collected(view, p, scanned + n)
  {
    if n > 0 {
      TakenIsCollected(view, p, scanned, candidates, n - 1);
      StretchRow(view, p + scanned, candidates, n - 1);
    }
  }

  /** How many eligible rows the first n rows from p hold. */
  function Count(view: seq<Item>, p: nat, n: nat): nat
    requires p + n <= |view|
  {
    if n == 0 then 0 else Count(view, p, n - 1) + (if view[p + n - 1].eligible then 1 else 0)
  }

  lemma {:induction false} CountIsLength(view: seq<Item>, p: nat, n: nat)
    requires p + n <= |view|
    ensures Count(view, p, n) == |Collected(view, p, n)|
  {
    if n > 0 { CountIsLength(view, p, n - 1); }
  }

  /** After n rows of a page that is not overfull, it still ends at q. */
  predicate EndsAt(view: seq<Item>, p: nat, q: nat, limit: nat, n: nat)
    requires p + n <= |view| && n <= 5 * limit
  {
    Count(view, p, n) <= limit && q == Scan(view, p + n, limit - Count(view, p, n), 5 * limit - n)
  }

  lemma EndStays(view: seq<Item>, p: nat, q: nat, limit: nat, n: nat)
    requires p + n < |view| && n < 5 * limit && Count(view, p, n) < limit && EndsAt(view, p, q, limit, n)
    ensures EndsAt(view, p, q, limit, n + 1)
  {
    ScanStep(view, p + n, limit - Count(view, p, n), 5 * limit - n);
  }

  /** As long as the page was not full before the last row read, the page still ends at the same place. */
  lemma {:induction false} ScanAdvances(view: seq<Item>, p: nat, q: nat, limit: nat, m: nat, n: nat)
    requires m <= n <= 5 * limit && p + n <= |view| && EndsAt(view, p, q, limit, m)
    requires n > m ==> Count(view, p, n - 1) < limit
    ensures EndsAt(view, p, q, limit, n)
    decreases n
  {
    if n > m {
      ScanAdvances(view, p, q, limit, m, n - 1);
      EndStays(view, p, q, limit, n - 1);
    }
  }

  lemma ScanStep(view: seq<Item>, p: nat, limit: nat, budget: nat)
    requires p < |view| && limit > 0 && budget > 0
    ensures Scan(view, p, limit, budget) == Scan(view, p + 1, if view[p].eligible then limit - 1 else limit, budget - 1)
  {
  }

  /** The cursor after the first n candidates. */
  function Reached(user: UserId, position: Option<Cursor>, candidates: seq<Item>, n: nat): Option<Cursor>
    requires n <= |candidates|
  {
    if n == 0 then position else CursorAt(user, candidates[n - 1])
  }

  /** Consuming a batch is progress along the listing; `m` rows of the page have been read then. */
  lemma ConsumedIsProgress(view: seq<Item>, p: nat, q: nat, limit: nat, scanned: nat, pageItems: seq<Item>,
                           user: UserId, position: Option<Cursor>, candidates: seq<Item>, n: nat, m: nat)
    requires Progress(view, p, q, limit, scanned, pageItems, user, position)
    requires IsStretch(view, p + scanned, candidates) && n <= |candidates| && m == scanned + n <= 5 * limit
    requires n > 0 ==> |Taken(pageItems, candidates, n - 1)| < limit
    ensures Progress(view, p, q, limit, m, Taken(pageItems, candidates, n), user,
        Reached(user, position, candidates, n))
  {
    if n > 0 {
      ConsumedCollects(view, p, q, limit, scanned, pageItems, candidates, n);
      ConsumedStands(view, p, scanned, user, position, candidates, n);
    }
  }

  lemma ConsumedStands(view: seq<Item>, p: nat, scanned: nat, user: UserId, position: Option<Cursor>,
                       candidates: seq<Item>, n: nat)
    requires IsStretch(view, p + scanned, candidates) && 0 < n <= |candidates|
    ensures StandsAt(view, p, scanned + n, user, Reached(user, position, candidates, n))
  {
    StretchRow(view, p + scanned, candidates, n - 1);
  }

  /** The rows taken are the eligible ones so far, and the page still ends at the same place. */
  lemma ConsumedCollects(view: seq<Item>, p: nat, q: nat, limit: nat, scanned: nat, pageItems: seq<Item>,
                         candidates: seq<Item>, n: nat)
    requires OnCourse(view, p, q, limit, scanned, pageItems)
    requires IsStretch(view, p + scanned, candidates) && 0 < n <= |candidates| && scanned + n <= 5 * limit
    requires |Taken(pageItems, candidates, n - 1)| < limit
    ensures OnCourse(view, p, q, limit, scanned + n, Taken(pageItems, candidates, n))
  {
    TakenIsCollected(view, p, scanned, candidates, n);
    TakenIsCollected(view, p, scanned, candidates, n - 1);
    CountIsLength(view, p, scanned);
    CountIsLength(view, p, scanned + n - 1);
    CountIsLength(view, p, scanned + n);
    ScanAdvances(view, p, q, limit, scanned, scanned + n);
  }

  /** The loop over one batch: at most `batchSize` rows, stopping when the page is full. */
  method ConsumeBatch(user: UserId, limit: nat, pageItems: seq<Item>, position: Option<Cursor>, candidates: seq<Item>,
                      batchSize: nat)
    returns (consumed: nat, items: seq<Item>, last: Option<Cursor>)
    ensures consumed <= batchSize && consumed <= |candidates|
    ensures items == Taken(pageItems, candidates, consumed)
    ensures last == Reached(user, position, candidates, consumed)
    ensures consumed > 0 ==> |Taken(pageItems, candidates, consumed - 1)| < limit
    ensures consumed == batchSize || consumed == |candidates| || |items| >= limit
  {
    consumed, items, last := 0, pageItems, position;
    while consumed < |candidates| && consumed < batchSize && |items| < limit
      invariant consumed <= |candidates| && consumed <= batchSize
      invariant items == Taken(pageItems, candidates, consumed)
      invariant last == Reached(user, position, candidates, consumed)
      invariant consumed > 0 ==> |Taken(pageItems, candidates, consumed - 1)| < limit
    {
      var item := candidates[consumed];
      consumed := consumed + 1;
      last := CursorAt(user, item);
      if item.eligible { items := items + [item]; }
    }
  }
}
