/** The episode and execution listings over their in-memory stores. */
module Listings {
  import opened Kernel
  import opened Text
  import opened RuntimeModel
  import opened Cursor
  import opened Pagination
  import opened EpisodeStore
  import Calendar
  import EpisodeRecording

  // ----- Episodes ---------------------------------------------------------------------------------------

  function RowOf(e: Episode): Row<Episode> {
    Row(Position(e.ingestedAt, e.id), e)
  }

  function EpisodeRows(episodes: seq<Episode>, scope: Scope): seq<Row<Episode>> {
    if episodes == [] then []
    else (if episodes[0].request.scope == scope then [RowOf(episodes[0])] else []) + EpisodeRows(episodes[1..], scope)
  }

  function EpisodeListing(lib: Library, c: Committed, scope: Scope): seq<Row<Episode>> {
    Ordered(KeysetOf(lib, EPISODES), EpisodeRows(c.episodes, scope))
  }

  function StreamEpisodes(lib: Library, c: Committed, scope: Scope, limit: Option<int>, cursor: Option<string>): Result<seq<Row<Episode>>, ListError> {
    Stream(KeysetOf(lib, EPISODES), EpisodeListing(lib, c, scope), limit, cursor)
  }

  function ListEpisodes(lib: Library, c: Committed, scope: Scope, limit: int, cursor: Option<string>): Result<Page<Episode>, ListError>
    requires limit > 0
  {
    ListPage(KeysetOf(lib, EPISODES), EpisodeListing(lib, c, scope), limit, cursor)
  }

  lemma {:induction false} EpisodeRowsHold(episodes: seq<Episode>, scope: Scope)
    requires IdsDistinct(episodes)
    ensures forall r :: r in EpisodeRows(episodes, scope) <==> r.item in episodes && r == RowOf(r.item) && r.item.request.scope == scope
    ensures DistinctPositions(EpisodeRows(episodes, scope))
  {
    if episodes != [] {
      EpisodeRowsHold(episodes[1..], scope);
      assert episodes == [episodes[0]] + episodes[1..];
      forall i | 0 <= i < |EpisodeRows(episodes[1..], scope)|
        ensures EpisodeRows(episodes[1..], scope)[i].position != RowOf(episodes[0]).position
      {
        var r := EpisodeRows(episodes[1..], scope)[i];
        assert r in EpisodeRows(episodes[1..], scope);
        var j :| 0 <= j < |episodes[1..]| && episodes[1..][j] == r.item;
        assert episodes[j + 1] == r.item && episodes[0].id != episodes[j + 1].id;
      }
    }
  }

  /** A listing holds exactly the scope's episodes, oldest first. */
  lemma EpisodeListingHolds(lib: Library, c: Committed, scope: Scope)
    requires Consistent(c)
    ensures InOrder(KeysetOf(lib, EPISODES), EpisodeListing(lib, c, scope))
    ensures forall r :: r in EpisodeListing(lib, c, scope) <==> r.item in c.episodes && r == RowOf(r.item) && r.item.request.scope == scope
  {
    EpisodeRowsHold(c.episodes, scope);
    OrderedSorts(KeysetOf(lib, EPISODES), EpisodeRows(c.episodes, scope));
  }

  // What a client sees, on the items' own fields.

  predicate IngestedBefore(a: Episode, b: Episode) {
    a.ingestedAt < b.ingestedAt || (a.ingestedAt == b.ingestedAt && a.id < b.id)
  }

  predicate IngestedAfter(e: Episode, cursor: Option<Position>) {
    cursor.Some? ==> cursor.value.instant < e.ingestedAt || (cursor.value.instant == e.ingestedAt && cursor.value.id < e.id)
  }

  /** A page of a scope's episodes that resumes after `cursor`: the oldest ones past it, oldest first, ids deciding
      between equal times; what is left out comes after all of them, and a next cursor says that something is. */
  ghost predicate EpisodesOnPage(c: Committed, scope: Scope, limit: int, cursor: Option<Position>, items: seq<Episode>, more: bool) {
    && |items| <= limit && (more ==> |items| == limit)
    && (forall k :: 0 <= k < |items| ==> items[k] in c.episodes && items[k].request.scope == scope && IngestedAfter(items[k], cursor))
    && (forall k, l :: 0 <= k < l < |items| ==> IngestedBefore(items[k], items[l]))
    && (forall e :: e in c.episodes && e.request.scope == scope && IngestedAfter(e, cursor) && e !in items ==>
          more && forall k :: 0 <= k < |items| ==> IngestedBefore(items[k], e))
    && (more ==> exists e :: e in c.episodes && e.request.scope == scope && IngestedAfter(e, cursor) && e !in items)
  }

  function ItemsOn<T>(rows: seq<Row<T>>): (items: seq<T>)
    ensures |items| == |rows| && forall k :: 0 <= k < |rows| ==> items[k] == rows[k].item
  {
    seq(|rows|, k requires 0 <= k < |rows| => rows[k].item)
  }

  /** The rows of a listing, read from the episodes themselves: exactly the scope's, the oldest first. */
  ghost predicate ReadsEpisodes(rows: seq<Row<Episode>>, c: Committed, scope: Scope) {
    && (forall i :: 0 <= i < |rows| ==> rows[i].item in c.episodes && rows[i].item.request.scope == scope
                                        && rows[i].position == Position(rows[i].item.ingestedAt, rows[i].item.id))
    && (forall i, j :: 0 <= i < j < |rows| ==> IngestedBefore(rows[i].item, rows[j].item))
    && (forall e :: e in c.episodes && e.request.scope == scope ==> exists i :: 0 <= i < |rows| && rows[i].item == e)
  }

  lemma EpisodeRowsRead(lib: Library, c: Committed, scope: Scope)
    requires Consistent(c)
    ensures ReadsEpisodes(EpisodeListing(lib, c, scope), c, scope)
  {
    EpisodeListingHolds(lib, c, scope);
    var rows := EpisodeListing(lib, c, scope);
    assert forall i :: 0 <= i < |rows| ==> rows[i] in rows;
    forall i, j | 0 <= i < j < |rows| ensures IngestedBefore(rows[i].item, rows[j].item) {
      assert Before(KeysetOf(lib, EPISODES), rows[i].position, rows[j].position);
    }
    forall e | e in c.episodes && e.request.scope == scope ensures exists i :: 0 <= i < |rows| && rows[i].item == e {
      assert RowOf(e).item == e && RowOf(e) in rows;
    }
  }

  /** A stretch of the listing is such a page. */
  lemma EpisodeStretch(c: Committed, scope: Scope, rows: seq<Row<Episode>>, limit: int, cursor: Option<Position>, m: nat, n: nat,
                       items: seq<Episode>, more: bool)
    requires ReadsEpisodes(rows, c, scope)
    requires m <= n <= |rows| && limit > 0 && n == Least(m + limit, |rows|)
    requires forall i :: 0 <= i < |rows| ==> (IngestedAfter(rows[i].item, cursor) <==> m <= i)
    requires items == ItemsOn(rows[m..n]) && (more <==> n < |rows|)
    ensures EpisodesOnPage(c, scope, limit, cursor, items, more)
  {
    assert forall k :: 0 <= k < |items| ==> items[k] == rows[m + k].item;
    forall i | m <= i < n ensures rows[i].item in items {
      assert items[i - m] == rows[i].item;
    }
    forall e | e in c.episodes && e.request.scope == scope && IngestedAfter(e, cursor) && e !in items
      ensures n < |rows| && forall k :: 0 <= k < |items| ==> IngestedBefore(items[k], e)
    {
      var i :| 0 <= i < |rows| && rows[i].item == e;
    }
    if n < |rows| {
      var e := rows[n].item;
      forall k | 0 <= k < |items| ensures items[k] != e {
        assert IngestedBefore(rows[m + k].item, e);
      }
    }
  }

  /** Past a cursor of an ascending listing means ingested after it. */
  lemma EpisodeCutMeans(keyset: Keyset, rows: seq<Row<Episode>>, c: Committed, scope: Scope, cursor: Option<Position>, m: nat)
    requires ReadsEpisodes(rows, c, scope) && !keyset.descending
    requires forall i :: 0 <= i < |rows| ==> (Past(keyset, cursor, rows[i].position) <==> m <= i)
    ensures forall i :: 0 <= i < |rows| ==> (IngestedAfter(rows[i].item, cursor) <==> m <= i)
  {
    forall i | 0 <= i < |rows| ensures IngestedAfter(rows[i].item, cursor) <==> m <= i {
      assert Past(keyset, cursor, rows[i].position) <==> m <= i;
    }
  }

  lemma EpisodePageOf(keyset: Keyset, rows: seq<Row<Episode>>, c: Committed, scope: Scope, limit: int, cursor: Option<string>, page: Page<Episode>)
    requires Invertible(keyset) && InOrder(keyset, rows) && !keyset.descending && ReadsEpisodes(rows, c, scope)
    requires limit > 0 && ListPage(keyset, rows, limit, cursor) == Ok(page)
    ensures cursor.Some? ==> keyset.decode(cursor.value).Ok?
    ensures EpisodesOnPage(c, scope, limit, After(keyset, cursor), ItemsOn(page.items), page.next.Some?)
    ensures page.next.Some? ==>
              |page.items| > 0
              && var last := page.items[|page.items| - 1].item;
                 keyset.decode(page.next.value) == Ok(Position(last.ingestedAt, last.id))
  {
    var m, n := PageCuts(keyset, rows, limit, cursor, page);
    var after := After(keyset, cursor);
    EpisodeCutMeans(keyset, rows, c, scope, after, m);
    EpisodeStretch(c, scope, rows, limit, after, m, n, ItemsOn(page.items), page.next.Some?);
  }

  /** Every page the handler answers is such a page, and its next cursor names the last episode's time and id. */
  lemma EpisodePageHolds(lib: Library, c: Committed, scope: Scope, limit: int, cursor: Option<string>, page: Page<Episode>)
    requires Sensible(lib) && Consistent(c) && limit > 0 && ListEpisodes(lib, c, scope, limit, cursor) == Ok(page)
    ensures cursor.Some? ==> Decode(lib, EPISODES, cursor.value).Ok?
    ensures var after := if cursor.None? then None else Some(Decode(lib, EPISODES, cursor.value).value);
            EpisodesOnPage(c, scope, limit, after, ItemsOn(page.items), page.next.Some?)
    ensures page.next.Some? ==>
              |page.items| > 0
              && var last := page.items[|page.items| - 1].item;
                 Decode(lib, EPISODES, page.next.value) == Ok(Position(last.ingestedAt, last.id))
  {
    ListingsInvertible(lib, EPISODES);
    EpisodeListingHolds(lib, c, scope);
    EpisodeRowsRead(lib, c, scope);
    EpisodePageOf(KeysetOf(lib, EPISODES), EpisodeListing(lib, c, scope), c, scope, limit, cursor, page);
  }

  ghost predicate EpisodePageAt(lib: Library, states: seq<Committed>, scope: Scope, limit: int, pages: seq<Page<Episode>>, i: nat)
    requires limit > 0 && i < |states| == |pages|
  {
    && (i > 0 ==> pages[i - 1].next.Some?)
    && ListEpisodes(lib, states[i], scope, limit, CursorAt(pages, i)) == Ok(pages[i])
  }

  /** A client following the cursors: page `i` is listed from `states[i]`. */
  ghost predicate EpisodePages(lib: Library, states: seq<Committed>, scope: Scope, limit: int, pages: seq<Page<Episode>>) {
    && limit > 0 && |states| == |pages| > 0
    && forall i :: 0 <= i < |pages| ==> EpisodePageAt(lib, states, scope, limit, pages, i)
  }

  function ListingsOf(lib: Library, states: seq<Committed>, scope: Scope): (r: seq<seq<Row<Episode>>>)
    ensures |r| == |states| && forall i :: 0 <= i < |states| ==> r[i] == EpisodeListing(lib, states[i], scope)
  {
    seq(|states|, i requires 0 <= i < |states| => EpisodeListing(lib, states[i], scope))
  }

  lemma EpisodesFollow(lib: Library, states: seq<Committed>, scope: Scope, limit: int, pages: seq<Page<Episode>>)
    requires Sensible(lib) && EpisodePages(lib, states, scope, limit, pages)
    requires forall i :: 0 <= i < |states| ==> Consistent(states[i])
    ensures Following(KeysetOf(lib, EPISODES), ListingsOf(lib, states, scope), limit, pages)
  {
    ListingsInvertible(lib, EPISODES);
    forall i | 0 <= i < |pages|
      ensures InOrder(KeysetOf(lib, EPISODES), ListingsOf(lib, states, scope)[i])
      ensures PageAt(KeysetOf(lib, EPISODES), ListingsOf(lib, states, scope), limit, pages, i)
    {
      assert EpisodePageAt(lib, states, scope, limit, pages, i);
      EpisodeListingHolds(lib, states[i], scope);
    }
  }

  /** Following the cursors over a store nobody writes to lists every episode of the scope, oldest first, in as
      few pages as hold them. */
  lemma EpisodePagesAreTheListing(lib: Library, c: Committed, states: seq<Committed>, scope: Scope, limit: int, pages: seq<Page<Episode>>)
    requires Sensible(lib) && Consistent(c) && forall i :: 0 <= i < |states| ==> states[i] == c
    requires EpisodePages(lib, states, scope, limit, pages) && pages[|pages| - 1].next.None?
    ensures Delivered(pages, |pages|) == EpisodeListing(lib, c, scope)
    ensures |pages| == PageCount(|EpisodeListing(lib, c, scope)|, limit)
  {
    EpisodesFollow(lib, states, scope, limit, pages);
    PagesAreTheListing(KeysetOf(lib, EPISODES), ListingsOf(lib, states, scope), EpisodeListing(lib, c, scope), limit, pages);
  }

  ghost predicate Ascending(times: seq<nat>) {
    forall i, j :: 0 <= i <= j < |times| ==> times[i] <= times[j]
  }

  /** Pages listed at successive moments of a run in which episodes are recorded: no episode is delivered twice,
      the order is kept across pages, and once a page names no next cursor every episode committed before the
      first page has been delivered. */
  lemma EpisodesDeliveredOnce(
    lib: Library, calls: seq<EpisodeRecording.Call>, run: seq<EpisodeRecording.System>, times: seq<nat>, states: seq<Committed>, scope: Scope,
    limit: int, pages: seq<Page<Episode>>)
    requires Sensible(lib) && EpisodeRecording.FreshCalls(calls) && EpisodeRecording.IsRun(calls, run)
    requires Ascending(times) && |times| == |states| && forall i :: 0 <= i < |times| ==> times[i] < |run| && states[i] == run[times[i]].committed
    requires EpisodePages(lib, states, scope, limit, pages)
    ensures InOrder(KeysetOf(lib, EPISODES), Delivered(pages, |pages|)) && DistinctPositions(Delivered(pages, |pages|))
    ensures pages[|pages| - 1].next.None? ==>
              forall e :: e in states[0].episodes && e.request.scope == scope ==> RowOf(e) in Delivered(pages, |pages|)
  {
    forall i | 0 <= i < |states| ensures Consistent(states[i]) {
      EpisodeRecording.RunKeeps(calls, run, times[i]);
    }
    EpisodesFollow(lib, states, scope, limit, pages);
    var stores := ListingsOf(lib, states, scope);
    forall i | 0 <= i < |stores| - 1 ensures GrowsAt(stores, i) {
      EpisodeRecording.OnlyGrows(calls, run, times[i], times[i + 1]);
      ListingGrows(lib, states[i], states[i + 1], scope);
    }
    NothingSkipped(KeysetOf(lib, EPISODES), stores, limit, pages);
    EpisodeListingHolds(lib, states[0], scope);
    forall e | e in states[0].episodes && e.request.scope == scope ensures RowOf(e) in stores[0] {
      assert RowOf(e).item == e;
    }
  }

  lemma ListingGrows(lib: Library, c: Committed, c': Committed, scope: Scope)
    requires Consistent(c) && Consistent(c') && c.episodes <= c'.episodes
    ensures forall r :: r in EpisodeListing(lib, c, scope) ==> r in EpisodeListing(lib, c', scope)
  {
    EpisodeListingHolds(lib, c, scope);
    EpisodeListingHolds(lib, c', scope);
    forall e | e in c.episodes ensures e in c'.episodes {
      var i :| 0 <= i < |c.episodes| && c.episodes[i] == e;
      assert c'.episodes[i] == e;
    }
  }

  // ----- Executions -------------------------------------------------------------------------------------

  datatype ExecutionItem = ExecutionItem(id: Uuid, scope: Scope, revision: int, status: Status, updatedAt: DateTime)

  function ToItem(s: Snapshot): ExecutionItem {
    ExecutionItem(s.id, s.scope, s.revision, s.status, s.updatedAt)
  }

  /** A dictionary of snapshots: its keys in the order they were inserted. */
  ghost predicate Keyed(order: seq<Uuid>, snapshots: map<Uuid, Snapshot>) {
    && Distinct(order)
    && forall i :: 0 <= i < |order| ==>
         order[i] in snapshots && snapshots[order[i]].id == order[i] && ValidSnapshot(snapshots[order[i]])
  }

  function SnapshotRow(s: Snapshot): Row<Snapshot>
    requires ValidSnapshot(s)
  {
    Row(Position(Calendar.Instant(s.updatedAt), s.id), s)
  }

  function ExecutionRows(order: seq<Uuid>, snapshots: map<Uuid, Snapshot>, scope: Scope): seq<Row<Snapshot>>
    requires Keyed(order, snapshots)
  {
    if order == [] then []
    else
      var last := snapshots[order[|order| - 1]];
      ExecutionRows(order[..|order| - 1], snapshots, scope) + if last.scope == scope then [SnapshotRow(last)] else []
  }

  function ExecutionListing(lib: Library, order: seq<Uuid>, snapshots: map<Uuid, Snapshot>, scope: Scope): seq<Row<Snapshot>>
    requires Keyed(order, snapshots)
  {
    Ordered(KeysetOf(lib, EXECUTIONS), ExecutionRows(order, snapshots, scope))
  }

  function StreamExecutions(lib: Library, order: seq<Uuid>, snapshots: map<Uuid, Snapshot>, scope: Scope, limit: Option<int>, cursor: Option<string>)
    : Result<seq<Row<Snapshot>>, ListError>
    requires Keyed(order, snapshots)
  {
    Stream(KeysetOf(lib, EXECUTIONS), ExecutionListing(lib, order, snapshots, scope), limit, cursor)
  }

  lemma {:induction false} ExecutionRowsHold(order: seq<Uuid>, snapshots: map<Uuid, Snapshot>, scope: Scope)
    requires Keyed(order, snapshots)
    ensures forall r :: r in ExecutionRows(order, snapshots, scope) ==>
              r.item.id in order && r.item == snapshots[r.item.id] && r == SnapshotRow(r.item) && r.item.scope == scope
    ensures forall id :: id in order && snapshots[id].scope == scope ==>
              SnapshotRow(snapshots[id]) in ExecutionRows(order, snapshots, scope)
    ensures DistinctPositions(ExecutionRows(order, snapshots, scope))
  {
    if order != [] {
      var rest, last := order[..|order| - 1], order[|order| - 1];
      ExecutionRowsHold(rest, snapshots, scope);
      assert order == rest + [last] && last !in rest;
      var rows := ExecutionRows(rest, snapshots, scope);
      forall i | 0 <= i < |rows| ensures rows[i].position != SnapshotRow(snapshots[last]).position {
        assert rows[i] in rows;
      }
    }
  }

  /** The executions listing holds exactly the scope's snapshots, the latest first. */
  lemma ExecutionListingHolds(lib: Library, order: seq<Uuid>, snapshots: map<Uuid, Snapshot>, scope: Scope)
    requires Keyed(order, snapshots)
    ensures InOrder(KeysetOf(lib, EXECUTIONS), ExecutionListing(lib, order, snapshots, scope))
    ensures forall id :: id in order && snapshots[id].scope == scope ==>
              SnapshotRow(snapshots[id]) in ExecutionListing(lib, order, snapshots, scope)
    ensures forall r :: r in ExecutionListing(lib, order, snapshots, scope) ==>
              r.item.id in order && r.item == snapshots[r.item.id] && r == SnapshotRow(r.item) && r.item.scope == scope
  {
    ExecutionRowsHold(order, snapshots, scope);
    OrderedSorts(KeysetOf(lib, EXECUTIONS), ExecutionRows(order, snapshots, scope));
  }

  predicate UpdatedAfter(a: ExecutionItem, b: ExecutionItem) {
    && ValidDateTime(a.updatedAt) && ValidDateTime(b.updatedAt)
    && var x, y := Calendar.Instant(a.updatedAt), Calendar.Instant(b.updatedAt);
       x > y || (x == y && a.id > b.id)
  }

  predicate UpdatedBefore(s: Snapshot, cursor: Option<Position>)
    requires ValidDateTime(s.updatedAt)
  {
    cursor.Some? ==>
      var at := Calendar.Instant(s.updatedAt);
      at < cursor.value.instant || (at == cursor.value.instant && s.id < cursor.value.id)
  }

  /** What an item shows of its execution. */
  predicate Shows(item: ExecutionItem, s: Snapshot) {
    && item.id == s.id && item.scope == s.scope && item.revision == s.revision && item.status == s.status
    && item.updatedAt == s.updatedAt
  }

  ghost predicate ItemStored(order: seq<Uuid>, snapshots: map<Uuid, Snapshot>, scope: Scope, cursor: Option<Position>, item: ExecutionItem)
    requires Keyed(order, snapshots)
  {
    item.id in order && Shows(item, snapshots[item.id]) && item.scope == scope && UpdatedBefore(snapshots[item.id], cursor)
  }

  ghost predicate Listed(items: seq<ExecutionItem>, id: Uuid) {
    exists k :: 0 <= k < |items| && items[k].id == id
  }

  /** A page of a scope's executions that resumes after `cursor`: the latest updated ones before it, latest first,
      the greater id first between equal instants, each as it is stored; what is left out comes after all of them, and
      a next cursor says that something is. */
  ghost predicate ExecutionsOnPage(order: seq<Uuid>, snapshots: map<Uuid, Snapshot>, scope: Scope, limit: int, cursor: Option<Position>,
                                   items: seq<ExecutionItem>, more: bool)
    requires Keyed(order, snapshots)
  {
    && |items| <= limit && (more ==> |items| == limit)
    && (forall k :: 0 <= k < |items| ==> ItemStored(order, snapshots, scope, cursor, items[k]))
    && (forall k, l :: 0 <= k < l < |items| ==> UpdatedAfter(items[k], items[l]))
    && (forall id :: id in order && snapshots[id].scope == scope && UpdatedBefore(snapshots[id], cursor) && !Listed(items, id) ==>
          more && forall k :: 0 <= k < |items| ==> UpdatedAfter(items[k], ToItem(snapshots[id])))
    && (more ==> exists id :: id in order && snapshots[id].scope == scope && UpdatedBefore(snapshots[id], cursor) && !Listed(items, id))
  }

  ghost predicate RowReads(order: seq<Uuid>, snapshots: map<Uuid, Snapshot>, scope: Scope, row: Row<Snapshot>)
    requires Keyed(order, snapshots)
  {
    && row.item.id in order && row.item == snapshots[row.item.id] && row.item.scope == scope && ValidDateTime(row.item.updatedAt)
    && row.position == Position(Calendar.Instant(row.item.updatedAt), row.item.id)
  }

  /** The rows of the listing, read from the snapshots themselves: exactly the scope's, the latest first. */
  ghost predicate ReadsExecutions(rows: seq<Row<Snapshot>>, order: seq<Uuid>, snapshots: map<Uuid, Snapshot>, scope: Scope)
    requires Keyed(order, snapshots)
  {
    && (forall i :: 0 <= i < |rows| ==> RowReads(order, snapshots, scope, rows[i]))
    && (forall i, j :: 0 <= i < j < |rows| ==> UpdatedAfter(ToItem(rows[i].item), ToItem(rows[j].item)))
    && (forall id :: id in order && snapshots[id].scope == scope ==> exists i :: 0 <= i < |rows| && rows[i].item == snapshots[id])
  }

  lemma ExecutionRowsRead(lib: Library, order: seq<Uuid>, snapshots: map<Uuid, Snapshot>, scope: Scope)
    requires Keyed(order, snapshots)
    ensures var rows := ExecutionListing(lib, order, snapshots, scope);
            ReadsExecutions(rows, order, snapshots, scope)
  {
    ExecutionListingHolds(lib, order, snapshots, scope);
    var rows := ExecutionListing(lib, order, snapshots, scope);
    forall i | 0 <= i < |rows| ensures RowReads(order, snapshots, scope, rows[i]) {
      assert rows[i] in rows;
    }
    forall i, j | 0 <= i < j < |rows| ensures UpdatedAfter(ToItem(rows[i].item), ToItem(rows[j].item)) {
      assert RowReads(order, snapshots, scope, rows[i]) && RowReads(order, snapshots, scope, rows[j]);
      assert Before(KeysetOf(lib, EXECUTIONS), rows[i].position, rows[j].position);
    }
    forall id | id in order && snapshots[id].scope == scope ensures exists i :: 0 <= i < |rows| && rows[i].item == snapshots[id] {
      assert SnapshotRow(snapshots[id]) in rows;
    }
  }

  lemma ExecutionStretch(order: seq<Uuid>, snapshots: map<Uuid, Snapshot>, scope: Scope, rows: seq<Row<Snapshot>>, limit: int,
                         cursor: Option<Position>, m: nat, n: nat, items: seq<ExecutionItem>, more: bool)
    requires Keyed(order, snapshots) && ReadsExecutions(rows, order, snapshots, scope)
    requires m <= n <= |rows| && limit > 0 && n == Least(m + limit, |rows|)
    requires forall i :: 0 <= i < |rows| ==> (UpdatedBefore(rows[i].item, cursor) <==> m <= i)
    requires items == Items(rows[m..n]) && (more <==> n < |rows|)
    ensures ExecutionsOnPage(order, snapshots, scope, limit, cursor, items, more)
  {
    forall k | 0 <= k < |items|
      ensures items[k] == ToItem(rows[m + k].item) && ItemStored(order, snapshots, scope, cursor, items[k])
    {
      assert RowReads(order, snapshots, scope, rows[m + k]);
    }
    forall i | m <= i < n ensures Listed(items, rows[i].item.id) {
      assert items[i - m].id == rows[i].item.id;
    }
    forall id | id in order && snapshots[id].scope == scope && UpdatedBefore(snapshots[id], cursor) && !Listed(items, id)
      ensures n < |rows| && forall k :: 0 <= k < |items| ==> UpdatedAfter(items[k], ToItem(snapshots[id]))
    {
      var i :| 0 <= i < |rows| && rows[i].item == snapshots[id];
    }
    if n < |rows| {
      assert RowReads(order, snapshots, scope, rows[n]);
      LeftOut(rows, items, m, n);
    }
  }

  /** Past a cursor of a descending listing means updated before it. */
  lemma CutMeans(keyset: Keyset, rows: seq<Row<Snapshot>>, order: seq<Uuid>, snapshots: map<Uuid, Snapshot>, scope: Scope,
                 cursor: Option<Position>, m: nat)
    requires Keyed(order, snapshots) && ReadsExecutions(rows, order, snapshots, scope) && keyset.descending
    requires forall i :: 0 <= i < |rows| ==> (Past(keyset, cursor, rows[i].position) <==> m <= i)
    ensures forall i :: 0 <= i < |rows| ==> ValidDateTime(rows[i].item.updatedAt) && (UpdatedBefore(rows[i].item, cursor) <==> m <= i)
  {
    forall i | 0 <= i < |rows|
      ensures ValidDateTime(rows[i].item.updatedAt) && (UpdatedBefore(rows[i].item, cursor) <==> m <= i)
    {
      RowPosition(order, snapshots, scope, rows, i);
      assert Past(keyset, cursor, rows[i].position) <==> m <= i;
    }
  }

  lemma ExecutionPageOf(keyset: Keyset, rows: seq<Row<Snapshot>>, order: seq<Uuid>, snapshots: map<Uuid, Snapshot>, scope: Scope,
                        limit: int, cursor: Option<string>, page: Page<Snapshot>)
    requires Keyed(order, snapshots) && Invertible(keyset) && InOrder(keyset, rows) && keyset.descending
    requires ReadsExecutions(rows, order, snapshots, scope) && limit > 0 && ListPage(keyset, rows, limit, cursor) == Ok(page)
    ensures cursor.Some? ==> keyset.decode(cursor.value).Ok?
    ensures ExecutionsOnPage(order, snapshots, scope, limit, After(keyset, cursor), Items(page.items), page.next.Some?)
  {
    var m, n := PageCuts(keyset, rows, limit, cursor, page);
    var after := After(keyset, cursor);
    CutMeans(keyset, rows, order, snapshots, scope, after, m);
    ExecutionStretch(order, snapshots, scope, rows, limit, after, m, n, Items(page.items), page.next.Some?);
  }

  lemma ExecutionNextOf(keyset: Keyset, rows: seq<Row<Snapshot>>, order: seq<Uuid>, snapshots: map<Uuid, Snapshot>, scope: Scope,
                        limit: int, cursor: Option<string>, page: Page<Snapshot>)
    requires Keyed(order, snapshots) && Invertible(keyset) && InOrder(keyset, rows)
    requires ReadsExecutions(rows, order, snapshots, scope) && limit > 0 && ListPage(keyset, rows, limit, cursor) == Ok(page)
    ensures page.next.Some? ==>
              |page.items| > 0
              && var last := page.items[|page.items| - 1].item;
                 ValidDateTime(last.updatedAt)
                 && keyset.decode(page.next.value) == Ok(Position(Calendar.Instant(last.updatedAt), last.id))
  {
    var m, n := PageCuts(keyset, rows, limit, cursor, page);
    if page.next.Some? {
      RowPosition(order, snapshots, scope, rows, n - 1);
    }
  }

  lemma RowPosition(order: seq<Uuid>, snapshots: map<Uuid, Snapshot>, scope: Scope, rows: seq<Row<Snapshot>>, i: nat)
    requires Keyed(order, snapshots) && ReadsExecutions(rows, order, snapshots, scope) && i < |rows|
    ensures ValidDateTime(rows[i].item.updatedAt)
    ensures rows[i].position == Position(Calendar.Instant(rows[i].item.updatedAt), rows[i].item.id)
  {
    assert RowReads(order, snapshots, scope, rows[i]);
  }

  lemma ItemsAre(r: Result<Page<Snapshot>, ListError>, items: seq<ExecutionItem>, next: Option<string>) returns (page: Page<Snapshot>)
    requires ItemsOf(r) == Ok((items, next))
    ensures r == Ok(page) && items == Items(page.items) && next == page.next
    ensures |items| > 0 ==>
              var last := page.items[|page.items| - 1].item;
              items[|items| - 1].id == last.id && items[|items| - 1].updatedAt == last.updatedAt
  {
    page := r.value;
  }

  lemma ItemsPageOf(keyset: Keyset, rows: seq<Row<Snapshot>>, order: seq<Uuid>, snapshots: map<Uuid, Snapshot>, scope: Scope,
                    limit: int, cursor: Option<string>, items: seq<ExecutionItem>, next: Option<string>)
    requires Keyed(order, snapshots) && Invertible(keyset) && InOrder(keyset, rows) && keyset.descending
    requires ReadsExecutions(rows, order, snapshots, scope) && limit > 0
    requires ItemsOf(ListPage(keyset, rows, limit, cursor)) == Ok((items, next))
    ensures cursor.Some? ==> keyset.decode(cursor.value).Ok?
    ensures ExecutionsOnPage(order, snapshots, scope, limit, After(keyset, cursor), items, next.Some?)
    ensures next.Some? ==>
              |items| > 0
              && var last := items[|items| - 1];
                 ValidDateTime(last.updatedAt)
                 && keyset.decode(next.value) == Ok(Position(Calendar.Instant(last.updatedAt), last.id))
  {
    var page := ItemsAre(ListPage(keyset, rows, limit, cursor), items, next);
    ExecutionPageOf(keyset, rows, order, snapshots, scope, limit, cursor, page);
    ExecutionNextOf(keyset, rows, order, snapshots, scope, limit, cursor, page);
  }

  /** An answer of `List`: such a page, its next cursor naming the last item's instant and id. */
  ghost predicate PageShown(lib: Library, order: seq<Uuid>, snapshots: map<Uuid, Snapshot>, scope: Scope, limit: int, cursor: Option<string>,
                            items: seq<ExecutionItem>, next: Option<string>)
    requires Keyed(order, snapshots)
  {
    && (cursor.Some? ==> Decode(lib, EXECUTIONS, cursor.value).Ok?)
    && (var after := if cursor.None? then None else Some(Decode(lib, EXECUTIONS, cursor.value).value);
        ExecutionsOnPage(order, snapshots, scope, limit, after, items, next.Some?))
    && (next.Some? ==>
          |items| > 0
          && var last := items[|items| - 1];
             ValidDateTime(last.updatedAt)
             && Decode(lib, EXECUTIONS, next.value) == Ok(Position(Calendar.Instant(last.updatedAt), last.id)))
  }

  lemma ExecutionPageHolds(lib: Library, order: seq<Uuid>, snapshots: map<Uuid, Snapshot>, scope: Scope, limit: int, cursor: Option<string>,
                           items: seq<ExecutionItem>, next: Option<string>)
    requires Sensible(lib) && Keyed(order, snapshots) && limit > 0
    requires ItemsOf(ListPage(KeysetOf(lib, EXECUTIONS), ExecutionListing(lib, order, snapshots, scope), limit, cursor)) == Ok((items, next))
    ensures PageShown(lib, order, snapshots, scope, limit, cursor, items, next)
  {
    ListingsInvertible(lib, EXECUTIONS);
    ExecutionListingHolds(lib, order, snapshots, scope);
    ExecutionRowsRead(lib, order, snapshots, scope);
    ItemsPageOf(KeysetOf(lib, EXECUTIONS), ExecutionListing(lib, order, snapshots, scope), order, snapshots, scope, limit, cursor, items, next);
  }

  lemma StreamedOf(keyset: Keyset, listing: seq<Row<Snapshot>>, order: seq<Uuid>, snapshots: map<Uuid, Snapshot>, scope: Scope,
                   limit: Option<int>, cursor: Option<string>, rows: seq<Row<Snapshot>>)
    requires Keyed(order, snapshots) && InOrder(keyset, listing) && ReadsExecutions(listing, order, snapshots, scope)
    requires Stream(keyset, listing, limit, cursor) == Ok(rows)
    ensures forall k :: 0 <= k < |rows| ==> RowReads(order, snapshots, scope, rows[k])
    ensures forall k, l :: 0 <= k < l < |rows| ==> UpdatedAfter(ToItem(rows[k].item), ToItem(rows[l].item))
  {
    var m, n := StreamCuts(keyset, listing, limit, cursor);
    assert forall k :: 0 <= k < |rows| ==> rows[k] == listing[m + k];
  }

  /** The rows a store streams are stored snapshots of the scope with their own positions, the latest first. */
  lemma StreamedRowsHold(lib: Library, order: seq<Uuid>, snapshots: map<Uuid, Snapshot>, scope: Scope, limit: Option<int>,
                         cursor: Option<string>, rows: seq<Row<Snapshot>>)
    requires Keyed(order, snapshots) && StreamExecutions(lib, order, snapshots, scope, limit, cursor) == Ok(rows)
    ensures forall k :: 0 <= k < |rows| ==> RowReads(order, snapshots, scope, rows[k])
    ensures forall k, l :: 0 <= k < l < |rows| ==> UpdatedAfter(ToItem(rows[k].item), ToItem(rows[l].item))
  {
    ExecutionListingHolds(lib, order, snapshots, scope);
    ExecutionRowsRead(lib, order, snapshots, scope);
    StreamedOf(KeysetOf(lib, EXECUTIONS), ExecutionListing(lib, order, snapshots, scope), order, snapshots, scope, limit, cursor, rows);
  }

  lemma LeftOut(rows: seq<Row<Snapshot>>, items: seq<ExecutionItem>, m: nat, n: nat)
    requires m <= n < |rows| && items == Items(rows[m..n])
    requires forall i :: 0 <= i < |rows| ==> ValidDateTime(rows[i].item.updatedAt)
    requires forall i, j :: 0 <= i < j < |rows| ==> UpdatedAfter(ToItem(rows[i].item), ToItem(rows[j].item))
    requires forall i, j :: 0 <= i < |rows| && 0 <= j < |rows| && rows[i].item.id == rows[j].item.id ==> rows[i].item == rows[j].item
    ensures !Listed(items, rows[n].item.id)
  {
    forall k | 0 <= k < |items| ensures items[k].id != rows[n].item.id {
      assert UpdatedAfter(ToItem(rows[m + k].item), ToItem(rows[n].item));
    }
  }

  /** Following the cursors over a fixed set of snapshots lists every execution of the scope, the latest first;
      such pages exist when every timestamp in the scope has a UTC form. */
  lemma ExecutionPagesAreTheListing(lib: Library, order: seq<Uuid>, snapshots: map<Uuid, Snapshot>, scope: Scope, limit: int)
    returns (stores: seq<seq<Row<Snapshot>>>, pages: seq<Page<Snapshot>>)
    requires Sensible(lib) && Keyed(order, snapshots) && limit > 0
    requires forall id :: id in order && snapshots[id].scope == scope ==> Calendar.Representable(Calendar.Instant(snapshots[id].updatedAt))
    ensures Following(KeysetOf(lib, EXECUTIONS), stores, limit, pages) && Constant(stores, ExecutionListing(lib, order, snapshots, scope))
    ensures pages != [] && pages[|pages| - 1].next.None?
    ensures Delivered(pages, |pages|) == ExecutionListing(lib, order, snapshots, scope)
    ensures |pages| == PageCount(|ExecutionListing(lib, order, snapshots, scope)|, limit)
  {
    ListingsInvertible(lib, EXECUTIONS);
    ExecutionsEncode(lib, order, snapshots, scope);
    stores, pages := AllPages(KeysetOf(lib, EXECUTIONS), ExecutionListing(lib, order, snapshots, scope), limit);
  }

  lemma ExecutionsEncode(lib: Library, order: seq<Uuid>, snapshots: map<Uuid, Snapshot>, scope: Scope)
    requires Keyed(order, snapshots)
    requires forall id :: id in order && snapshots[id].scope == scope ==> Calendar.Representable(Calendar.Instant(snapshots[id].updatedAt))
    ensures InOrder(KeysetOf(lib, EXECUTIONS), ExecutionListing(lib, order, snapshots, scope))
    ensures forall r :: r in ExecutionListing(lib, order, snapshots, scope) ==> KeysetOf(lib, EXECUTIONS).encode(r.position).Ok?
  {
    ExecutionListingHolds(lib, order, snapshots, scope);
    forall r | r in ExecutionListing(lib, order, snapshots, scope) ensures KeysetOf(lib, EXECUTIONS).encode(r.position).Ok? {
      assert r.position.instant == Calendar.Instant(snapshots[r.item.id].updatedAt);
    }
  }

  lemma AllPages<T>(keyset: Keyset, rows: seq<Row<T>>, limit: int) returns (stores: seq<seq<Row<T>>>, pages: seq<Page<T>>)
    requires limit > 0 && Invertible(keyset) && InOrder(keyset, rows)
    requires forall r :: r in rows ==> keyset.encode(r.position).Ok?
    ensures Following(keyset, stores, limit, pages) && Constant(stores, rows) && pages != [] && pages[|pages| - 1].next.None?
    ensures Delivered(pages, |pages|) == rows && |pages| == PageCount(|rows|, limit)
  {
    stores, pages := PagesEnd(keyset, rows, limit);
    PagesAreTheListing(keyset, stores, rows, limit, pages);
  }

  lemma ShownIfSensible(lib: Library, order: seq<Uuid>, snapshots: map<Uuid, Snapshot>, scope: Scope, limit: int, cursor: Option<string>,
                        items: seq<ExecutionItem>, next: Option<string>)
    requires Keyed(order, snapshots) && limit > 0
    requires ItemsOf(ListPage(KeysetOf(lib, EXECUTIONS), ExecutionListing(lib, order, snapshots, scope), limit, cursor)) == Ok((items, next))
    ensures Sensible(lib) ==> PageShown(lib, order, snapshots, scope, limit, cursor, items, next)
  {
    if Sensible(lib) {
      ExecutionPageHolds(lib, order, snapshots, scope, limit, cursor, items, next);
    }
  }

  class ExecutionIndex {
    const lib: Library
    var order: seq<Uuid>
    var snapshots: map<Uuid, Snapshot>

    ghost predicate Valid()
      reads this
    {
      Keyed(order, snapshots)
    }

    constructor (lib: Library)
      ensures Valid() && this.lib == lib && order == [] && snapshots == map[]
    {
      this.lib, order, snapshots := lib, [], map[];
    }

    /** The rows of the scope, sorted; those after the cursor; the first `limit` of them. */
    method StreamRows(scope: Scope, limit: Option<int>, cursor: Option<string>) returns (r: Result<seq<Row<Snapshot>>, ListError>)
      requires Valid()
      ensures r == StreamExecutions(lib, order, snapshots, scope, limit, cursor)
    {
      if cursor.Some? && limit.None? {
        return Err(CursorRequiresLimit);
      }
      if limit.Some? && limit.value <= 0 {
        return Err(LimitNotPositive);
      }
      var rows: seq<Row<Snapshot>> := [];
      for i := 0 to |order|
        invariant rows == ExecutionRows(order[..i], snapshots, scope)
      {
        assert order[..i + 1][..i] == order[..i];
        var snapshot := snapshots[order[i]];
        if snapshot.scope == scope {
          rows := rows + [SnapshotRow(snapshot)];
        }
      }
      assert order[..|order|] == order;
      rows := Ordered(KeysetOf(lib, EXECUTIONS), rows);
      if cursor.Some? {
        var position := Decode(lib, EXECUTIONS, cursor.value);
        if position.Err? {
          return Err(Refused(position.error));
        }
        rows := Beyond(KeysetOf(lib, EXECUTIONS), rows, position.value);
      }
      r := Ok(Take(rows, limit));
    }

    method List(scope: Scope, limit: int, cursor: Option<string>) returns (r: Result<(seq<ExecutionItem>, Option<string>), ListError>)
      requires Valid() && limit > 0
      ensures r == ItemsOf(ListPage(KeysetOf(lib, EXECUTIONS), ExecutionListing(lib, order, snapshots, scope), limit, cursor))
      ensures r.Ok? && Sensible(lib) ==> PageShown(lib, order, snapshots, scope, limit, cursor, r.value.0, r.value.1)
    {
      var got := StreamRows(scope, Some(limit + 1), cursor);
      r := Answer(KeysetOf(lib, EXECUTIONS), ExecutionListing(lib, order, snapshots, scope), limit, cursor, got);
      if r.Ok? {
        ShownIfSensible(lib, order, snapshots, scope, limit, cursor, r.value.0, r.value.1);
      }
    }
  }

  function Items(rows: seq<Row<Snapshot>>): (items: seq<ExecutionItem>)
    ensures |items| == |rows| && forall i :: 0 <= i < |rows| ==> items[i] == ToItem(rows[i].item)
  {
    seq(|rows|, i requires 0 <= i < |rows| => ToItem(rows[i].item))
  }

  function ItemsOf(page: Result<Page<Snapshot>, ListError>): Result<(seq<ExecutionItem>, Option<string>), ListError> {
    match page
    case Err(error) => Err(error)
    case Ok(p) => Ok((Items(p.items), p.next))
  }

  /** The handler's answer to the rows it got: a page of them and, when one more came, the next cursor. */
  method Answer(keyset: Keyset, ghost listing: seq<Row<Snapshot>>, limit: int, ghost cursor: Option<string>,
                got: Result<seq<Row<Snapshot>>, ListError>)
    returns (r: Result<(seq<ExecutionItem>, Option<string>), ListError>)
    requires limit > 0 && got == Stream(keyset, listing, Some(limit + 1), cursor)
    ensures r == ItemsOf(ListPage(keyset, listing, limit, cursor))
  {
    if got.Err? {
      return Err(got.error);
    }
    var rows := got.value;
    if |rows| > limit {
      var next := keyset.encode(rows[limit - 1].position);
      if next.Err? {
        return Err(Refused(next.error));
      }
      return Ok((Items(rows[..limit]), Some(next.value)));
    }
    r := Ok((Items(rows), None));
  }
}
