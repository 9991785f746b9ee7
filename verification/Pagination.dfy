/** Keyset pagination: one page of a listing, and what following the cursors from page to page delivers. */
module Pagination {
  import opened Kernel
  import opened Text
  import opened Sorting
  import opened Cursor
  import Calendar

  /** How a listing is walked: its cursor text, and whether later rows come first. */
  datatype Keyset = Keyset(
    encode: Position -> Result<string, CursorError>, decode: string -> Result<Position, CursorError>, descending: bool)

  /** Every cursor that can be made reads back. */
  ghost predicate Invertible(keyset: Keyset) {
    forall p :: keyset.encode(p).Ok? ==> keyset.decode(keyset.encode(p).value) == Ok(p)
  }

  function KeysetOf(lib: Library, listing: Listing): Keyset {
    Keyset((p: Position) => Encode(listing, p), (s: string) => Decode(lib, listing, s), listing.descending)
  }

  lemma ListingsInvertible(lib: Library, listing: Listing)
    requires Sensible(lib) && listing in {EPISODES, CLAIMS, EXECUTIONS}
    ensures Invertible(KeysetOf(lib, listing))
  {
    var keyset := KeysetOf(lib, listing);
    forall p | keyset.encode(p).Ok? ensures keyset.decode(keyset.encode(p).value) == Ok(p) {
      RoundTrip(lib, listing, p);
    }
  }

  datatype Row<T> = Row(position: Position, item: T)

  datatype ListError = CursorRequiresLimit | LimitNotPositive | Refused(error: CursorError)

  datatype Page<T> = Page(items: seq<Row<T>>, next: Option<string>)

  /** Tuples of a timestamp, compared as an instant, and an identifier. */
  predicate Earlier(p: Position, q: Position) {
    p.instant < q.instant || (p.instant == q.instant && p.id < q.id)
  }

  predicate Before(keyset: Keyset, p: Position, q: Position) {
    if keyset.descending then Earlier(q, p) else Earlier(p, q)
  }

  function KeyedRows<T>(rows: seq<Row<T>>): (r: seq<Keyed<Row<T>>>)
    ensures |r| == |rows| && forall i :: 0 <= i < |rows| ==> r[i] == Keyed([rows[i].position.instant, rows[i].position.id], rows[i])
  {
    seq(|rows|, i requires 0 <= i < |rows| => Keyed([rows[i].position.instant, rows[i].position.id], rows[i]))
  }

  function Unkeyed<T>(keyed: seq<Keyed<Row<T>>>, descending: bool): (r: seq<Row<T>>)
    ensures |r| == |keyed|
    ensures forall i :: 0 <= i < |keyed| ==> r[i] == keyed[if descending then |keyed| - 1 - i else i].item
  {
    seq(|keyed|, i requires 0 <= i < |keyed| => keyed[if descending then |keyed| - 1 - i else i].item)
  }

  function Ordered<T>(keyset: Keyset, rows: seq<Row<T>>): seq<Row<T>> {
    Unkeyed(Sort(KeyedRows(rows)), keyset.descending)
  }

  /** The rows after a position. */
  function Beyond<T>(keyset: Keyset, rows: seq<Row<T>>, p: Position): (r: seq<Row<T>>) {
    if rows == [] then []
    else (if Before(keyset, p, rows[0].position) then [rows[0]] else []) + Beyond(keyset, rows[1..], p)
  }

  function Take<T>(rows: seq<T>, limit: Option<int>): seq<T>
    requires limit.Some? ==> limit.value >= 0
  {
    if limit.Some? && limit.value < |rows| then rows[..limit.value] else rows
  }

  /** The stores' listing; `rows` are those of the scope, sorted. */
  function Stream<T>(keyset: Keyset, rows: seq<Row<T>>, limit: Option<int>, cursor: Option<string>)
    : (r: Result<seq<Row<T>>, ListError>)
  {
    if cursor.Some? && limit.None? then Err(CursorRequiresLimit)
    else if limit.Some? && limit.value <= 0 then Err(LimitNotPositive)
    else if cursor.None? then Ok(Take(rows, limit))
    else
      match keyset.decode(cursor.value)
      case Err(error) => Err(Refused(error))
      case Ok(p) => Ok(Take(Beyond(keyset, rows, p), limit))
  }

  /** The list handlers: one row more than a page is asked for, to see whether another page follows. */
  function ListPage<T>(keyset: Keyset, rows: seq<Row<T>>, limit: int, cursor: Option<string>): (r: Result<Page<T>, ListError>)
    requires limit > 0
  {
    match Stream(keyset, rows, Some(limit + 1), cursor)
    case Err(error) => Err(error)
    case Ok(got) => PageOf(keyset, got, limit)
  }

  function PageOf<T>(keyset: Keyset, got: seq<Row<T>>, limit: int): (r: Result<Page<T>, ListError>)
    requires limit > 0
  {
    if |got| > limit then
      match keyset.encode(got[limit - 1].position)
      case Err(error) => Err(Refused(error))
      case Ok(next) => Ok(Page(got[..limit], Some(next)))
    else Ok(Page(got, None))
  }

  // ----- Sorted listings ------------------------------------------------------------------------------

  ghost predicate InOrder<T>(keyset: Keyset, rows: seq<Row<T>>) {
    forall i, j :: 0 <= i < j < |rows| ==> Before(keyset, rows[i].position, rows[j].position)
  }

  ghost predicate DistinctPositions<T>(rows: seq<Row<T>>) {
    forall i, j :: 0 <= i < j < |rows| ==> rows[i].position != rows[j].position
  }

  lemma EarlierIsLess(p: Position, q: Position)
    ensures Less([p.instant, p.id], [q.instant, q.id]) <==> Earlier(p, q)
  {
    assert [p.instant, p.id][1..] == [p.id] && [q.instant, q.id][1..] == [q.id];
    assert [p.id as int][1..] == [] && !Less([], [q.id as int][1..]);
    assert Less([p.id], [q.id]) <==> p.id < q.id;
  }

  ghost predicate KeyFits<T>(x: Keyed<Row<T>>) {
    x.key == [x.item.position.instant, x.item.position.id]
  }

  lemma KeysInOrder<T>(x: Keyed<Row<T>>, y: Keyed<Row<T>>)
    requires KeyFits(x) && KeyFits(y)
    ensures Less(x.key, y.key) <==> Earlier(x.item.position, y.item.position)
    ensures x.key == y.key <==> x.item.position == y.item.position
  {
    EarlierIsLess(x.item.position, y.item.position);
    assert x.key[0] == x.item.position.instant && x.key[1] == x.item.position.id;
    assert y.key[0] == y.item.position.instant && y.key[1] == y.item.position.id;
  }

  lemma SortedEarlier<T>(sorted: seq<Keyed<Row<T>>>)
    requires StrictlySorted(sorted) && forall i :: 0 <= i < |sorted| ==> KeyFits(sorted[i])
    ensures forall i, j :: 0 <= i < j < |sorted| ==> Earlier(sorted[i].item.position, sorted[j].item.position)
  {
    forall i, j | 0 <= i < j < |sorted| ensures Earlier(sorted[i].item.position, sorted[j].item.position) {
      KeysInOrder(sorted[i], sorted[j]);
    }
  }

  lemma RowsKeyed<T>(rows: seq<Row<T>>)
    requires DistinctPositions(rows)
    ensures DistinctKeys(KeyedRows(rows)) && forall x :: x in KeyedRows(rows) ==> KeyFits(x) && x.item in rows
  {
    var keyed := KeyedRows(rows);
    forall i, j | 0 <= i < j < |keyed| ensures keyed[i].key != keyed[j].key {
      assert rows[i].position != rows[j].position;
      KeysInOrder(keyed[i], keyed[j]);
    }
  }

  lemma UnkeyedFits<T>(keyset: Keyset, sorted: seq<Keyed<Row<T>>>)
    requires forall i, j :: 0 <= i < j < |sorted| ==> Earlier(sorted[i].item.position, sorted[j].item.position)
    ensures InOrder(keyset, Unkeyed(sorted, keyset.descending))
    ensures forall r :: r in Unkeyed(sorted, keyset.descending) <==> exists x :: x in sorted && x.item == r
  {
    UnkeyedMembers(sorted, keyset.descending);
  }

  lemma UnkeyedMembers<T>(sorted: seq<Keyed<Row<T>>>, descending: bool)
    ensures forall r :: r in Unkeyed(sorted, descending) <==> exists x :: x in sorted && x.item == r
  {
    var xs := Unkeyed(sorted, descending);
    forall x | x in sorted ensures x.item in xs {
      var j :| 0 <= j < |sorted| && sorted[j] == x;
      assert xs[if descending then |xs| - 1 - j else j] == x.item;
    }
  }

  /** The listing holds the rows of the store, in order. */
  lemma OrderedSorts<T>(keyset: Keyset, rows: seq<Row<T>>)
    requires DistinctPositions(rows)
    ensures var xs := Ordered(keyset, rows);
            InOrder(keyset, xs) && |xs| == |rows| && forall r :: r in xs <==> r in rows
  {
    var keyed := KeyedRows(rows);
    RowsKeyed(rows);
    SortSorts(keyed);
    var sorted := Sort(keyed);
    SameMembers(sorted, keyed);
    forall i | 0 <= i < |sorted| ensures KeyFits(sorted[i]) {
      SortMember(keyed, i);
    }
    SortedEarlier(sorted);
    UnkeyedFits(keyset, sorted);
    SortedHoldsRows(rows, sorted);
  }

  lemma SortedHoldsRows<T>(rows: seq<Row<T>>, sorted: seq<Keyed<Row<T>>>)
    requires |sorted| == |rows| && forall x :: x in sorted <==> x in KeyedRows(rows)
    ensures forall r :: r in rows <==> exists x :: x in sorted && x.item == r
  {
    var keyed := KeyedRows(rows);
    forall r | r in rows ensures exists x :: x in sorted && x.item == r {
      var i :| 0 <= i < |rows| && rows[i] == r;
      assert keyed[i] in keyed;
      assert keyed[i] in sorted;
    }
    forall x | x in sorted ensures x.item in rows {
      var i :| 0 <= i < |keyed| && keyed[i] == x;
    }
  }

  lemma {:induction false} BeyondMember<T>(keyset: Keyset, rows: seq<Row<T>>, p: Position)
    ensures forall r :: r in Beyond(keyset, rows, p) <==> r in rows && Before(keyset, p, r.position)
  {
    if rows != [] {
      BeyondMember(keyset, rows[1..], p);
      assert rows == [rows[0]] + rows[1..];
    }
  }

  lemma {:induction false} AllBeyond<T>(keyset: Keyset, rows: seq<Row<T>>, p: Position)
    requires forall i :: 0 <= i < |rows| ==> Before(keyset, p, rows[i].position)
    ensures Beyond(keyset, rows, p) == rows
  {
    if rows != [] {
      AllBeyond(keyset, rows[1..], p);
    }
  }

  /** Of a sorted listing, the rows after a position are a suffix. */
  lemma {:induction false} BeyondSuffix<T>(keyset: Keyset, rows: seq<Row<T>>, p: Position) returns (m: nat)
    requires InOrder(keyset, rows)
    ensures m <= |rows| && Beyond(keyset, rows, p) == rows[m..]
    ensures forall i :: 0 <= i < |rows| ==> (Before(keyset, p, rows[i].position) <==> m <= i)
  {
    if rows == [] {
      m := 0;
    } else if Before(keyset, p, rows[0].position) {
      AllBeyond(keyset, rows, p);
      m := 0;
    } else {
      var k := BeyondSuffix(keyset, rows[1..], p);
      m := k + 1;
      assert rows[1..][k..] == rows[m..];
      forall i | 0 <= i < |rows| ensures Before(keyset, p, rows[i].position) <==> m <= i {
        if i > 0 {
          assert rows[1..][i - 1] == rows[i];
        }
      }
    }
  }

  /** After the m-th row of a sorted listing come the rows from number m on. */
  lemma BeyondRow<T>(keyset: Keyset, rows: seq<Row<T>>, m: nat)
    requires InOrder(keyset, rows) && 0 < m <= |rows|
    ensures Beyond(keyset, rows, rows[m - 1].position) == rows[m..]
  {
    var k := BeyondSuffix(keyset, rows, rows[m - 1].position);
    assert m < |rows| ==> Before(keyset, rows[m - 1].position, rows[m].position);
    assert !Before(keyset, rows[m - 1].position, rows[m - 1].position);
    assert k == m;
  }

  // ----- One page ---------------------------------------------------------------------------------------

  /** Where a cursor resumes. */
  function After(keyset: Keyset, cursor: Option<string>): (p: Option<Position>) {
    if cursor.None? || keyset.decode(cursor.value).Err? then None else Some(keyset.decode(cursor.value).value)
  }

  predicate Past(keyset: Keyset, after: Option<Position>, p: Position) {
    after.Some? ==> Before(keyset, after.value, p)
  }

  /** The rows of a listing a cursor leaves. */
  function Left<T>(keyset: Keyset, rows: seq<Row<T>>, cursor: Option<string>): seq<Row<T>> {
    match After(keyset, cursor)
    case None => rows
    case Some(p) => Beyond(keyset, rows, p)
  }

  lemma LeftSorted<T>(keyset: Keyset, rows: seq<Row<T>>, cursor: Option<string>)
    requires InOrder(keyset, rows)
    ensures InOrder(keyset, Left(keyset, rows, cursor))
    ensures forall r :: r in Left(keyset, rows, cursor) ==> r in rows && Past(keyset, After(keyset, cursor), r.position)
    ensures forall r :: r in rows && Past(keyset, After(keyset, cursor), r.position) ==> r in Left(keyset, rows, cursor)
  {
    if After(keyset, cursor).Some? {
      var p := After(keyset, cursor).value;
      var m := BeyondSuffix(keyset, rows, p);
      BeyondMember(keyset, rows, p);
    }
  }

  function Least(a: int, b: int): int {
    if a < b then a else b
  }

  /** A page holds the first rows past its cursor, up to the limit; it names a next cursor, at its last row,
      exactly when rows are left. */
  lemma PageGives<T>(keyset: Keyset, rows: seq<Row<T>>, limit: int, cursor: Option<string>)
    requires limit > 0 && Invertible(keyset) && ListPage(keyset, rows, limit, cursor).Ok?
    ensures var page, left := ListPage(keyset, rows, limit, cursor).value, Left(keyset, rows, cursor);
            && page.items == left[..Least(limit, |left|)]
            && (page.next.Some? <==> |left| > limit)
            && (page.next.Some? ==> keyset.decode(page.next.value) == Ok(left[limit - 1].position))
  {
    var left := Left(keyset, rows, cursor);
    var got := Take(left, Some(limit + 1));
    if |left| > limit {
      assert got[..limit] == left[..limit];
      assert keyset.encode(got[limit - 1].position).Ok?;
    }
  }

  /** A page is refused only for a cursor that does not read, or a last row no cursor can be made for. */
  lemma PageAnswers<T>(keyset: Keyset, rows: seq<Row<T>>, limit: int, cursor: Option<string>)
    requires limit > 0
    ensures ListPage(keyset, rows, limit, cursor).Ok? <==>
            && (cursor.Some? ==> keyset.decode(cursor.value).Ok?)
            && (|Left(keyset, rows, cursor)| > limit ==>
                  keyset.encode(Left(keyset, rows, cursor)[limit - 1].position).Ok?)
  {
  }

  /** A store refuses a cursor without a limit first, then a limit that is not positive, then a cursor that does not
      read, and otherwise gives the stretch of the listing from the first row past the cursor up to the limit. */
  lemma StreamCuts<T>(keyset: Keyset, rows: seq<Row<T>>, limit: Option<int>, cursor: Option<string>) returns (m: nat, n: nat)
    requires InOrder(keyset, rows)
    ensures m <= n <= |rows|
    ensures var r := Stream(keyset, rows, limit, cursor);
            if cursor.Some? && limit.None? then r == Err(CursorRequiresLimit)
            else if limit.Some? && limit.value <= 0 then r == Err(LimitNotPositive)
            else if cursor.Some? && keyset.decode(cursor.value).Err? then r == Err(Refused(keyset.decode(cursor.value).error))
            else && r == Ok(rows[m..n]) && n == (if limit.Some? then Least(m + limit.value, |rows|) else |rows|)
                 && (forall i :: 0 <= i < |rows| ==> (Past(keyset, After(keyset, cursor), rows[i].position) <==> m <= i))
  {
    m := 0;
    if cursor.Some? && keyset.decode(cursor.value).Ok? {
      m := BeyondSuffix(keyset, rows, keyset.decode(cursor.value).value);
    }
    var left := Left(keyset, rows, cursor);
    assert left == rows[m..];
    n := if limit.Some? && limit.value > 0 then Least(m + limit.value, |rows|) else |rows|;
    assert left[..n - m] == rows[m..n] && left[..|left|] == left;
    assert (limit.Some? && limit.value <= 0) || Take(left, limit) == rows[m..n];
  }

  /** A page is a stretch of its listing: it begins with the first row past its cursor and ends at the limit or with
      the listing, and its next cursor, if any, is that of its last row. */
  lemma PageCuts<T>(keyset: Keyset, rows: seq<Row<T>>, limit: int, cursor: Option<string>, page: Page<T>)
    returns (m: nat, n: nat)
    requires limit > 0 && Invertible(keyset) && InOrder(keyset, rows) && ListPage(keyset, rows, limit, cursor) == Ok(page)
    ensures cursor.Some? ==> keyset.decode(cursor.value).Ok?
    ensures m <= n <= |rows| && (forall i :: 0 <= i < |rows| ==> (Past(keyset, After(keyset, cursor), rows[i].position) <==> m <= i))
    ensures page.items == rows[m..n] && n == Least(m + limit, |rows|)
    ensures page.next.Some? <==> n < |rows|
    ensures page.next.Some? ==> m < n && keyset.decode(page.next.value) == Ok(rows[n - 1].position)
  {
    PageAnswers(keyset, rows, limit, cursor);
    PageGives(keyset, rows, limit, cursor);
    var left := Left(keyset, rows, cursor);
    m := 0;
    if cursor.Some? {
      m := BeyondSuffix(keyset, rows, keyset.decode(cursor.value).value);
    }
    assert left == rows[m..];
    n := Least(m + limit, |rows|);
    assert left[..Least(limit, |left|)] == rows[m..n];
  }

  // ----- Following the cursors ----------------------------------------------------------------------------

  /** The cursor page `i` is asked with. */
  function CursorAt<T>(pages: seq<Page<T>>, i: nat): Option<string>
    requires i <= |pages|
  {
    if i == 0 then None else pages[i - 1].next
  }

  ghost predicate PageAt<T>(keyset: Keyset, stores: seq<seq<Row<T>>>, limit: int, pages: seq<Page<T>>, i: nat)
    requires i < |pages| == |stores| && limit > 0
  {
    && (i > 0 ==> pages[i - 1].next.Some?)
    && ListPage(keyset, stores[i], limit, CursorAt(pages, i)) == Ok(pages[i])
  }

  /** Pages fetched one after the other, each with the cursor of the one before; `stores[i]` is what the store
      held when page `i` was fetched. */
  ghost predicate Following<T>(keyset: Keyset, stores: seq<seq<Row<T>>>, limit: int, pages: seq<Page<T>>) {
    && limit > 0 && |stores| == |pages| && Invertible(keyset)
    && (forall i :: 0 <= i < |pages| ==> InOrder(keyset, stores[i]))
    && forall i :: 0 <= i < |pages| ==> PageAt(keyset, stores, limit, pages, i)
  }

  function Delivered<T>(pages: seq<Page<T>>, i: nat): seq<Row<T>>
    requires i <= |pages|
  {
    if i == 0 then [] else Delivered(pages, i - 1) + pages[i - 1].items
  }

  /** Up to where pages that name a next cursor have delivered. */
  ghost predicate UpTo<T>(keyset: Keyset, pages: seq<Page<T>>, i: nat)
    requires i <= |pages|
  {
    i > 0 && pages[i - 1].next.Some? ==>
      var after := After(keyset, pages[i - 1].next);
      && after.Some? && Delivered(pages, i) != []
      && Delivered(pages, i)[|Delivered(pages, i)| - 1].position == after.value
  }

  /** What a page is to a client: its rows are in order, from the store and past the cursor; a next cursor stands
      at the last of them; every row past the cursor is on the page or past the next cursor. */
  ghost predicate Serves<T>(keyset: Keyset, rows: seq<Row<T>>, cursor: Option<string>, page: Page<T>) {
    && InOrder(keyset, page.items)
    && (forall r :: r in page.items ==> r in rows && Past(keyset, After(keyset, cursor), r.position))
    && (page.next.Some? ==>
          page.items != [] && After(keyset, page.next) == Some(page.items[|page.items| - 1].position))
    && forall r :: r in rows && Past(keyset, After(keyset, cursor), r.position) ==>
         r in page.items || (page.next.Some? && Past(keyset, After(keyset, page.next), r.position))
  }

  lemma PageServes<T>(keyset: Keyset, rows: seq<Row<T>>, limit: int, cursor: Option<string>)
    requires limit > 0 && Invertible(keyset) && InOrder(keyset, rows) && ListPage(keyset, rows, limit, cursor).Ok?
    ensures Serves(keyset, rows, cursor, ListPage(keyset, rows, limit, cursor).value)
  {
    PageGives(keyset, rows, limit, cursor);
    LeftSorted(keyset, rows, cursor);
    PrefixServes(keyset, rows, Left(keyset, rows, cursor), limit, cursor, ListPage(keyset, rows, limit, cursor).value);
  }

  lemma PrefixServes<T>(keyset: Keyset, rows: seq<Row<T>>, left: seq<Row<T>>, limit: int, cursor: Option<string>, page: Page<T>)
    requires limit > 0 && InOrder(keyset, left)
    requires forall r :: r in left <==> r in rows && Past(keyset, After(keyset, cursor), r.position)
    requires page.items == left[..Least(limit, |left|)] && (page.next.Some? <==> |left| > limit)
    requires page.next.Some? ==> keyset.decode(page.next.value) == Ok(left[limit - 1].position)
    ensures Serves(keyset, rows, cursor, page)
  {
    forall r | r in rows && Past(keyset, After(keyset, cursor), r.position)
      ensures r in page.items || (page.next.Some? && Past(keyset, After(keyset, page.next), r.position))
    {
      var i :| 0 <= i < |left| && left[i] == r;
      if i < limit {
        assert page.items[i] == r;
      } else {
        assert Before(keyset, left[limit - 1].position, left[i].position);
      }
    }
    forall r | r in page.items ensures r in left {
    }
  }

  lemma PageStep<T>(keyset: Keyset, stores: seq<seq<Row<T>>>, limit: int, pages: seq<Page<T>>, i: nat)
    requires Following(keyset, stores, limit, pages) && i < |pages|
    ensures InOrder(keyset, stores[i]) && Serves(keyset, stores[i], CursorAt(pages, i), pages[i])
    ensures i > 0 ==> pages[i - 1].next.Some?
  {
    assert PageAt(keyset, stores, limit, pages, i);
    PageServes(keyset, stores[i], limit, CursorAt(pages, i));
  }

  lemma {:induction false} DeliveredInOrder<T>(keyset: Keyset, stores: seq<seq<Row<T>>>, limit: int, pages: seq<Page<T>>, i: nat)
    requires Following(keyset, stores, limit, pages) && i <= |pages|
    ensures InOrder(keyset, Delivered(pages, i)) && UpTo(keyset, pages, i)
  {
    if i > 0 {
      DeliveredInOrder(keyset, stores, limit, pages, i - 1);
      PageStep(keyset, stores, limit, pages, i - 1);
      if i > 1 {
        AppendInOrder(keyset, Delivered(pages, i - 1), pages[i - 1].items);
      } else {
        assert Delivered(pages, i) == pages[i - 1].items;
      }
    }
  }

  lemma AppendInOrder<T>(keyset: Keyset, a: seq<Row<T>>, b: seq<Row<T>>)
    requires InOrder(keyset, a) && InOrder(keyset, b) && a != []
    requires forall r :: r in b ==> Before(keyset, a[|a| - 1].position, r.position)
    ensures InOrder(keyset, a + b)
  {
    var ab := a + b;
    forall i, j | 0 <= i < j < |ab| ensures Before(keyset, ab[i].position, ab[j].position) {
      if i < |a| <= j {
        assert ab[j] == b[j - |a|] && ab[j] in b;
      }
    }
  }

  ghost predicate GrowsAt<T>(stores: seq<seq<Row<T>>>, i: nat)
    requires i + 1 < |stores|
  {
    forall r :: r in stores[i] ==> r in stores[i + 1]
  }

  ghost predicate Growing<T>(stores: seq<seq<Row<T>>>) {
    forall i :: 0 <= i < |stores| - 1 ==> GrowsAt(stores, i)
  }

  lemma {:induction false} StillThere<T>(stores: seq<seq<Row<T>>>, i: nat, r: Row<T>)
    requires Growing(stores) && i < |stores| && r in stores[0]
    ensures r in stores[i]
  {
    if i > 0 {
      StillThere(stores, i - 1, r);
      assert GrowsAt(stores, i - 1);
    }
  }

  /** Delivered by the first `i` pages, or still ahead of the next cursor. */
  ghost predicate Reaches<T>(keyset: Keyset, pages: seq<Page<T>>, i: nat, r: Row<T>)
    requires i <= |pages|
  {
    || r in Delivered(pages, i)
    || ((i > 0 ==> pages[i - 1].next.Some?) && Past(keyset, After(keyset, CursorAt(pages, i)), r.position))
  }

  lemma {:induction false} DeliveredInTime<T>(
    keyset: Keyset, stores: seq<seq<Row<T>>>, limit: int, pages: seq<Page<T>>, i: nat, r: Row<T>)
    requires Following(keyset, stores, limit, pages) && Growing(stores) && i <= |pages| && pages != [] && r in stores[0]
    ensures Reaches(keyset, pages, i, r)
  {
    if i > 0 {
      DeliveredInTime(keyset, stores, limit, pages, i - 1, r);
      PageStep(keyset, stores, limit, pages, i - 1);
      StillThere(stores, i - 1, r);
    }
  }

  /** While rows are appended between pages, the pages stay in order, so deliver no row twice, and once the last
      page names no next cursor every row of the first page's store has been delivered. */
  lemma NothingSkipped<T>(keyset: Keyset, stores: seq<seq<Row<T>>>, limit: int, pages: seq<Page<T>>)
    requires Following(keyset, stores, limit, pages) && Growing(stores) && pages != []
    ensures InOrder(keyset, Delivered(pages, |pages|))
    ensures DistinctPositions(Delivered(pages, |pages|))
    ensures pages[|pages| - 1].next.None? ==> forall r :: r in stores[0] ==> r in Delivered(pages, |pages|)
  {
    DeliveredInOrder(keyset, stores, limit, pages, |pages|);
    var all := Delivered(pages, |pages|);
    forall i, j | 0 <= i < j < |all| ensures all[i].position != all[j].position {
    }
    if pages[|pages| - 1].next.None? {
      forall r | r in stores[0] ensures r in all {
        DeliveredInTime(keyset, stores, limit, pages, |pages|, r);
      }
    }
  }

  // ----- A store that does not change ---------------------------------------------------------------------

  ghost predicate Constant<T>(stores: seq<seq<Row<T>>>, rows: seq<Row<T>>) {
    forall i :: 0 <= i < |stores| ==> stores[i] == rows
  }

  /** The first `i` pages delivered the first `m` rows of the listing, or all there are. */
  ghost predicate PrefixAt<T>(keyset: Keyset, xs: seq<Row<T>>, pages: seq<Page<T>>, i: nat, m: nat)
    requires i <= |pages|
  {
    && Delivered(pages, i) == xs[..Least(m, |xs|)]
    && (i == 0 ==> m == 0)
    && (i > 0 ==> m > 0 && (pages[i - 1].next.Some? <==> m < |xs|))
    && (i > 0 && m < |xs| ==> After(keyset, pages[i - 1].next) == Some(xs[m - 1].position))
  }

  lemma LeftIsSuffix<T>(keyset: Keyset, rows: seq<Row<T>>, cursor: Option<string>, m: nat)
    requires InOrder(keyset, rows) && m <= |rows|
    requires if m == 0 then cursor == None else After(keyset, cursor) == Some(rows[m - 1].position)
    ensures Left(keyset, rows, cursor) == rows[m..]
  {
    if m > 0 {
      BeyondRow(keyset, rows, m);
    }
  }

  lemma NextPrefix<T>(xs: seq<Row<T>>, m: nat, limit: nat)
    requires m <= |xs|
    ensures xs[..m] + xs[m..][..Least(limit, |xs| - m)] == xs[..Least(m + limit, |xs|)]
    ensures limit > 0 && m + limit <= |xs| ==> xs[m..][limit - 1] == xs[m + limit - 1]
  {
  }

  lemma NextPage<T>(keyset: Keyset, rows: seq<Row<T>>, limit: int, pages: seq<Page<T>>, i: nat, m: nat)
    requires limit > 0 && Invertible(keyset) && InOrder(keyset, rows) && i < |pages|
    requires PrefixAt(keyset, rows, pages, i, m) && (i > 0 ==> pages[i - 1].next.Some?)
    requires ListPage(keyset, rows, limit, CursorAt(pages, i)) == Ok(pages[i])
    ensures PrefixAt(keyset, rows, pages, i + 1, m + limit)
  {
    LeftIsSuffix(keyset, rows, CursorAt(pages, i), m);
    PageGives(keyset, rows, limit, CursorAt(pages, i));
    NextPrefix(rows, m, limit);
  }

  lemma NextPageAt<T>(keyset: Keyset, stores: seq<seq<Row<T>>>, rows: seq<Row<T>>, limit: int, pages: seq<Page<T>>, i: nat, m: nat)
    requires Following(keyset, stores, limit, pages) && i < |pages| && stores[i] == rows
    requires PrefixAt(keyset, rows, pages, i, m)
    ensures PrefixAt(keyset, rows, pages, i + 1, m + limit)
  {
    assert PageAt(keyset, stores, limit, pages, i);
    NextPage(keyset, rows, limit, pages, i, m);
  }

  /** The first `i` pages of a fixed store are the first `i * limit` rows of its listing. */
  lemma {:induction false} PrefixDelivered<T>(
    keyset: Keyset, stores: seq<seq<Row<T>>>, rows: seq<Row<T>>, limit: int, pages: seq<Page<T>>, i: nat)
    requires Following(keyset, stores, limit, pages) && Constant(stores, rows) && i <= |pages|
    ensures i * limit >= 0 && PrefixAt(keyset, rows, pages, i, i * limit)
  {
    if i > 0 {
      PrefixDelivered(keyset, stores, rows, limit, pages, i - 1);
      NextPageAt(keyset, stores, rows, limit, pages, i - 1, (i - 1) * limit);
      assert i * limit == (i - 1) * limit + limit;
    }
  }

  /** How many pages hold `n` rows: one for none. */
  function PageCount(n: nat, limit: int): int
    requires limit > 0
  {
    if n == 0 then 1 else (n + limit - 1) / limit
  }

  /** Following the cursors of a fixed store to the end delivers exactly its sorted listing, in one page when it
      is empty and otherwise in as many pages as it takes to hold its rows. */
  lemma PagesAreTheListing<T>(keyset: Keyset, stores: seq<seq<Row<T>>>, rows: seq<Row<T>>, limit: int, pages: seq<Page<T>>)
    requires Following(keyset, stores, limit, pages) && Constant(stores, rows)
    requires pages != [] && pages[|pages| - 1].next.None?
    ensures Delivered(pages, |pages|) == rows
    ensures |pages| == PageCount(|rows|, limit)
  {
    var k := |pages|;
    FixedSizes(keyset, stores, rows, limit, pages);
    if |rows| > 0 {
      CeilingIs(|rows|, limit, k);
    }
  }

  lemma NextNamed<T>(keyset: Keyset, stores: seq<seq<Row<T>>>, limit: int, pages: seq<Page<T>>, i: nat)
    requires Following(keyset, stores, limit, pages) && i < |pages|
    ensures i > 0 ==> pages[i - 1].next.Some?
  {
    assert PageAt(keyset, stores, limit, pages, i);
  }

  lemma FixedSizes<T>(keyset: Keyset, stores: seq<seq<Row<T>>>, rows: seq<Row<T>>, limit: int, pages: seq<Page<T>>)
    requires Following(keyset, stores, limit, pages) && Constant(stores, rows)
    requires pages != [] && pages[|pages| - 1].next.None?
    ensures Delivered(pages, |pages|) == rows && |rows| <= |pages| * limit
    ensures |pages| > 1 ==> (|pages| - 1) * limit < |rows|
  {
    var k := |pages|;
    NextNamed(keyset, stores, limit, pages, k - 1);
    PrefixDelivered(keyset, stores, rows, limit, pages, k);
    PrefixDelivered(keyset, stores, rows, limit, pages, k - 1);
    LastPrefix(keyset, rows, pages, k, k * limit, (k - 1) * limit);
  }

  lemma LastPrefix<T>(keyset: Keyset, rows: seq<Row<T>>, pages: seq<Page<T>>, k: nat, m: nat, before: nat)
    requires 0 < k == |pages| && PrefixAt(keyset, rows, pages, k, m) && PrefixAt(keyset, rows, pages, k - 1, before)
    requires pages[k - 1].next.None? && (k > 1 ==> pages[k - 2].next.Some?)
    ensures Delivered(pages, k) == rows && |rows| <= m && (k > 1 ==> before < |rows|)
  {
    Bounded(keyset, rows, pages, k, m);
    Bounded(keyset, rows, pages, k - 1, before);
  }

  lemma Bounded<T>(keyset: Keyset, xs: seq<Row<T>>, pages: seq<Page<T>>, i: nat, m: nat)
    requires i <= |pages| && PrefixAt(keyset, xs, pages, i, m)
    ensures i > 0 && pages[i - 1].next.Some? ==> m < |xs|
    ensures i > 0 && pages[i - 1].next.None? ==> |xs| <= m && Delivered(pages, i) == xs
  {
  }

  lemma CeilingIs(n: nat, limit: nat, k: nat)
    requires limit > 0 && k > 0 && (k - 1) * limit < n <= k * limit
    ensures (n + limit - 1) / limit == k
  {
    var q := (n + limit - 1) / limit;
    assert q * limit <= n + limit - 1 < (q + 1) * limit by {
      assert n + limit - 1 == limit * q + (n + limit - 1) % limit;
      assert (q + 1) * limit == q * limit + limit && limit * q == q * limit;
    }
    assert (k + 1) * limit == k * limit + limit && (k - 1) * limit == k * limit - limit;
    if q < k {
      Scaled(q + 1, k, limit);
    } else if q > k {
      Scaled(k + 1, q, limit);
    }
  }

  lemma Scaled(a: nat, b: nat, limit: nat)
    requires a <= b
    ensures a * limit <= b * limit
  {
    assert b * limit == a * limit + (b - a) * limit;
  }

  lemma AddPage<T>(keyset: Keyset, stores: seq<seq<Row<T>>>, rows: seq<Row<T>>, limit: int, pages: seq<Page<T>>, page: Page<T>)
    requires Following(keyset, stores, limit, pages) && InOrder(keyset, rows)
    requires pages != [] ==> pages[|pages| - 1].next.Some?
    requires ListPage(keyset, rows, limit, CursorAt(pages, |pages|)) == Ok(page)
    ensures Following(keyset, stores + [rows], limit, pages + [page])
  {
    var stores', pages' := stores + [rows], pages + [page];
    forall k | 0 <= k < |pages'| ensures InOrder(keyset, stores'[k]) && PageAt(keyset, stores', limit, pages', k) {
      assert CursorAt(pages', k) == CursorAt(pages, k);
      if k < |pages| {
        assert InOrder(keyset, stores[k]) && PageAt(keyset, stores, limit, pages, k);
      }
    }
  }

  lemma CanList<T>(keyset: Keyset, rows: seq<Row<T>>, limit: int, cursor: Option<string>)
    requires limit > 0 && InOrder(keyset, rows) && forall r :: r in rows ==> keyset.encode(r.position).Ok?
    requires cursor.Some? ==> keyset.decode(cursor.value).Ok?
    ensures ListPage(keyset, rows, limit, cursor).Ok?
  {
    var left := Left(keyset, rows, cursor);
    LeftSorted(keyset, rows, cursor);
    forall i | 0 <= i < |left| ensures keyset.encode(left[i].position).Ok? {
      assert left[i] in left;
      assert left[i] in rows;
    }
    PageAnswers(keyset, rows, limit, cursor);
  }

  /** There are such pages, whatever the rows, as long as a cursor can be made for each. */
  lemma {:induction false} PagesExist<T>(keyset: Keyset, rows: seq<Row<T>>, limit: int, n: nat)
    returns (stores: seq<seq<Row<T>>>, pages: seq<Page<T>>)
    requires limit > 0 && Invertible(keyset) && InOrder(keyset, rows)
    requires forall r :: r in rows ==> keyset.encode(r.position).Ok?
    ensures Following(keyset, stores, limit, pages) && Constant(stores, rows)
    ensures |pages| == n || (pages != [] && pages[|pages| - 1].next.None?)
  {
    if n == 0 {
      stores, pages := [], [];
    } else {
      stores, pages := PagesExist(keyset, rows, limit, n - 1);
      if pages == [] || pages[|pages| - 1].next.Some? {
        if pages != [] {
          PrefixDelivered(keyset, stores, rows, limit, pages, |pages|);
        }
        CanList(keyset, rows, limit, CursorAt(pages, |pages|));
        var page := ListPage(keyset, rows, limit, CursorAt(pages, |pages|)).value;
        AddPage(keyset, stores, rows, limit, pages, page);
        stores, pages := stores + [rows], pages + [page];
      }
    }
  }

  /** A client that keeps following the cursors of a fixed store reaches a page without one. */
  lemma PagesEnd<T>(keyset: Keyset, rows: seq<Row<T>>, limit: int) returns (stores: seq<seq<Row<T>>>, pages: seq<Page<T>>)
    requires limit > 0 && Invertible(keyset) && InOrder(keyset, rows)
    requires forall r :: r in rows ==> keyset.encode(r.position).Ok?
    ensures Following(keyset, stores, limit, pages) && Constant(stores, rows)
    ensures pages != [] && pages[|pages| - 1].next.None?
  {
    var n := |rows| + 1;
    Scaled(1, limit, n);
    stores, pages := PagesExist(keyset, rows, limit, n);
    if pages[|pages| - 1].next.Some? {
      PageStep(keyset, stores, limit, pages, n - 1);
      PrefixDelivered(keyset, stores, rows, limit, pages, n);
      assert false;
    }
  }
}
