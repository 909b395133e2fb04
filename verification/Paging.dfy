// Paging across database shards (inbox/api/filtering.py, inbox/ignition.py).
module Paging {
  import opened Common

  type Id = nat

  // One engine: its key and the ids in the queried table, in ascending order.
  datatype Shard = Shard(key: nat, rows: seq<Id>)

  const SHARD_SPAN: nat := 0x1_0000_0000_0000

  // id >> 48
  function ShardKeyForId(id: Id): nat { id / SHARD_SPAN }

  predicate Ascending(rows: seq<Id>) { forall i, j :: 0 <= i < j < |rows| ==> rows[i] < rows[j] }

  // sorted(engine_manager.engines)
  predicate Sorted(db: seq<Shard>) {
    && (forall i, j :: 0 <= i < j < |db| ==> db[i].key < db[j].key)
    && (forall i :: 0 <= i < |db| ==> Ascending(db[i].rows))
  }

  // Every row is on the shard that its id names.
  predicate WellPlaced(db: seq<Shard>) {
    Sorted(db) && forall i, id :: 0 <= i < |db| && id in db[i].rows ==> ShardKeyForId(id) == db[i].key
  }

  function AllRows(db: seq<Shard>): seq<Id> {
    if db == [] then [] else db[0].rows + AllRows(db[1..])
  }

  function First(n: nat, rows: seq<Id>): seq<Id> { if |rows| <= n then rows else rows[..n] }

  function Beyond(rows: seq<Id>, cursor: Id): seq<Id> {
    if rows == [] then [] else (if rows[0] > cursor then [rows[0]] else []) + Beyond(rows[1..], cursor)
  }

  // The query on one shard: no filter without a cursor, and a cursor of 0 counts as none.
  function Query(rows: seq<Id>, cursor: Option<Id>, limit: nat): seq<Id> {
    First(limit, if cursor.Some? && cursor.value != 0 then Beyond(rows, cursor.value) else rows)
  }

  // The cursor applies to the shard it points into only.
  function LatestCursor(key: nat, cursor: Id): Option<Id> {
    if key == ShardKeyForId(cursor) then Some(cursor) else None
  }

  // An id that does not name its shard is made to.
  function Repaired(id: Id, key: nat): Id {
    if key != 0 && ShardKeyForId(id) == 0 then id + key * SHARD_SPAN else id
  }

  // ----- the loop, as a function of the shards still to come -----

  datatype Page = Page(results: seq<Id>, next: Option<Id>)

  function PageFrom(db: seq<Shard>, cursor: Id, remaining: nat, next: Option<Id>): Page
    decreases |db|
  {
    if db == [] then Page([], next)
    else if db[0].key < ShardKeyForId(cursor) then PageFrom(db[1..], cursor, remaining, next)
    else if remaining == 0 then Page([], next)
    else
      var latest := Query(db[0].rows, LatestCursor(db[0].key, cursor), remaining);
      var next' := if latest == [] then next else Some(Repaired(latest[|latest| - 1], db[0].key));
      var rest := PageFrom(db[1..], cursor, remaining - |latest|, next');
      Page(latest + rest.results, rest.next)
  }

  // page_over_shards
  method PageOverShards(db: seq<Shard>, cursor: Id, limit: nat) returns (results: seq<Id>, nextCursor: Option<Id>)
    ensures Page(results, nextCursor) == PageFrom(db, cursor, limit, None)
    ensures |results| <= limit
    ensures WellPlaced(db) ==> results == First(limit, Remaining(db, cursor))
    ensures WellPlaced(db) ==> nextCursor == LastOr(results, None)
  {
    results, nextCursor := CollectPage(db, cursor, limit);
    if WellPlaced(db) { PageIsExact(db, cursor, limit, None); }
  }

  // The loop over the shards.
  method CollectPage(db: seq<Shard>, cursor: Id, limit: nat) returns (results: seq<Id>, nextCursor: Option<Id>)
    ensures Page(results, nextCursor) == PageFrom(db, cursor, limit, None)
    ensures |results| <= limit
  {
    var start := ShardKeyForId(cursor);
    results, nextCursor := [], None;
    var remaining: nat := limit;
    var k := 0;
    while k < |db|
      invariant k <= |db| && |results| + remaining == limit
      invariant PageFrom(db, cursor, limit, None) == Prefixed(results, PageFrom(db[k..], cursor, remaining, nextCursor))
    {
      ghost var before, rest := results, PageFrom(db[k..], cursor, remaining, nextCursor);
      assert db[k..][0] == db[k] && db[k..][1..] == db[k + 1..];
      if db[k].key >= start {
        if |results| >= limit { break; }
        var latest := Query(db[k].rows, LatestCursor(db[k].key, cursor), remaining);
        if latest != [] {
          results := results + latest;
          nextCursor := Some(Repaired(latest[|latest| - 1], db[k].key));
          remaining := remaining - |latest|;
        }
        PrefixedTwice(before, latest, PageFrom(db[k + 1..], cursor, remaining, nextCursor));
        assert rest == Prefixed(latest, PageFrom(db[k + 1..], cursor, remaining, nextCursor));
      }
      k := k + 1;
    }
    assert PageFrom(db[k..], cursor, remaining, nextCursor) == Page([], nextCursor);
    assert results + [] == results;
  }

  function Prefixed(results: seq<Id>, page: Page): Page { Page(results + page.results, page.next) }

  lemma PrefixedTwice(a: seq<Id>, b: seq<Id>, page: Page)
    ensures Prefixed(a, Prefixed(b, page)) == Prefixed(a + b, page)
  {}

  // ----- what a page is -----

  // The rows ahead of a cursor, of one shard and of all of them.
  function Ahead(rows: seq<Id>, cursor: Id): seq<Id> { if cursor == 0 then rows else Beyond(rows, cursor) }

  function Remaining(db: seq<Shard>, cursor: Id): seq<Id> { Ahead(AllRows(db), cursor) }

  lemma {:induction false} BeyondConcat(a: seq<Id>, b: seq<Id>, cursor: Id)
    ensures Beyond(a + b, cursor) == Beyond(a, cursor) + Beyond(b, cursor)
  {
    if a == [] {
      assert a + b == b;
    } else {
      assert (a + b)[1..] == a[1..] + b;
      BeyondConcat(a[1..], b, cursor);
    }
  }

  lemma {:induction false} BeyondAllOrNone(rows: seq<Id>, cursor: Id)
    ensures (forall id :: id in rows ==> id > cursor) ==> Beyond(rows, cursor) == rows
    ensures (forall id :: id in rows ==> id <= cursor) ==> Beyond(rows, cursor) == []
  {
    if rows != [] {
      BeyondAllOrNone(rows[1..], cursor);
      assert forall id :: id in rows[1..] ==> id in rows;
      assert rows[0] in rows && rows == [rows[0]] + rows[1..];
    }
  }

  lemma ShardAhead(shard: Shard, cursor: Id)
    requires forall id :: id in shard.rows ==> ShardKeyForId(id) == shard.key
    ensures shard.key < ShardKeyForId(cursor) ==> Ahead(shard.rows, cursor) == []
    ensures shard.key > ShardKeyForId(cursor) ==> Ahead(shard.rows, cursor) == shard.rows
  {
    BeyondAllOrNone(shard.rows, cursor);
    forall id | id in shard.rows
      ensures shard.key < ShardKeyForId(cursor) ==> id <= cursor
      ensures shard.key > ShardKeyForId(cursor) ==> id > cursor
    {
      assert ShardKeyForId(id) == shard.key;
    }
  }

  lemma FirstConcat(n: nat, a: seq<Id>, b: seq<Id>)
    ensures First(n, a + b) == First(n, a) + First(n - |First(n, a)|, b)
  {}

  lemma WellPlacedRest(db: seq<Shard>)
    requires db != [] && WellPlaced(db)
    ensures WellPlaced(db[1..]) && forall id :: id in db[0].rows ==> ShardKeyForId(id) == db[0].key
  {
    assert forall i :: 0 <= i < |db[1..]| ==> db[1..][i] == db[i + 1];
  }

  // A page is the first `remaining` rows ahead of the cursor, across all shards, and the next
  // cursor is its last id.
  lemma {:induction false} PageIsExact(db: seq<Shard>, cursor: Id, remaining: nat, next: Option<Id>)
    requires WellPlaced(db)
    ensures var page := PageFrom(db, cursor, remaining, next);
      && page.results == First(remaining, Remaining(db, cursor))
      && page.next == LastOr(page.results, next)
    decreases |db|
  {
    if db != [] {
      WellPlacedRest(db);
      var rows := Ahead(db[0].rows, cursor);
      BeyondConcat(db[0].rows, AllRows(db[1..]), cursor);
      ShardAhead(db[0], cursor);
      assert Remaining(db, cursor) == rows + Remaining(db[1..], cursor);
      FirstConcat(remaining, rows, Remaining(db[1..], cursor));
      if db[0].key < ShardKeyForId(cursor) {
        assert rows + Remaining(db[1..], cursor) == Remaining(db[1..], cursor);
        PageIsExact(db[1..], cursor, remaining, next);
      } else if remaining > 0 {
        StepIsExact(db, cursor, remaining, next);
      }
    }
  }

  lemma BeyondIsIn(rows: seq<Id>, cursor: Id)
    ensures forall id :: id in Beyond(rows, cursor) ==> id in rows
  {}

  // On a well-placed shard the query sees the rows ahead of the cursor, and no id needs repair.
  lemma QueryIsExact(shard: Shard, cursor: Id, remaining: nat)
    requires forall id :: id in shard.rows ==> ShardKeyForId(id) == shard.key
    requires shard.key >= ShardKeyForId(cursor)
    ensures Query(shard.rows, LatestCursor(shard.key, cursor), remaining) == First(remaining, Ahead(shard.rows, cursor))
    ensures var latest := First(remaining, Ahead(shard.rows, cursor));
      latest != [] ==> Repaired(latest[|latest| - 1], shard.key) == latest[|latest| - 1]
  {
    ShardAhead(shard, cursor);
    BeyondIsIn(shard.rows, cursor);
    var rows := Ahead(shard.rows, cursor);
    var latest := First(remaining, rows);
    if latest != [] { assert latest[|latest| - 1] in rows; }
  }

  function LastOr(rows: seq<Id>, next: Option<Id>): Option<Id> {
    if rows == [] then next else Some(rows[|rows| - 1])
  }

  // One visited shard.
  lemma {:induction false} StepIsExact(db: seq<Shard>, cursor: Id, remaining: nat, next: Option<Id>)
    requires WellPlaced(db) && db != [] && remaining > 0 && db[0].key >= ShardKeyForId(cursor)
    ensures var page := PageFrom(db, cursor, remaining, next);
      && page.results == First(remaining, Ahead(db[0].rows, cursor) + Remaining(db[1..], cursor))
      && page.next == LastOr(page.results, next)
    decreases |db|, 0
  {
    WellPlacedRest(db);
    var rows, tail := Ahead(db[0].rows, cursor), Remaining(db[1..], cursor);
    var latest := First(remaining, rows);
    PageIsExact(db[1..], cursor, remaining - |latest|, LastOr(latest, next));
    var rest := PageFrom(db[1..], cursor, remaining - |latest|, LastOr(latest, next));
    assert PageFrom(db, cursor, remaining, next) == Page(latest + rest.results, rest.next) by {
      QueryIsExact(db[0], cursor, remaining);
      PageUnfolds(db, cursor, remaining, next, latest);
    }
    Joined(latest, rest, rows, tail, remaining, next);
  }

  lemma Joined(latest: seq<Id>, rest: Page, rows: seq<Id>, tail: seq<Id>, remaining: nat, next: Option<Id>)
    requires latest == First(remaining, rows) && rest.results == First(remaining - |latest|, tail)
    requires rest.next == LastOr(rest.results, LastOr(latest, next))
    ensures latest + rest.results == First(remaining, rows + tail)
    ensures rest.next == LastOr(latest + rest.results, next)
  {
    FirstConcat(remaining, rows, tail);
    LastOrConcat(latest, rest.results, next);
  }

  lemma LastOrConcat(a: seq<Id>, b: seq<Id>, next: Option<Id>)
    ensures LastOr(a + b, next) == LastOr(b, LastOr(a, next))
  {}

  lemma PageUnfolds(db: seq<Shard>, cursor: Id, remaining: nat, next: Option<Id>, latest: seq<Id>)
    requires db != [] && remaining > 0 && db[0].key >= ShardKeyForId(cursor) && |latest| <= remaining
    requires latest == Query(db[0].rows, LatestCursor(db[0].key, cursor), remaining)
    requires latest != [] ==> Repaired(latest[|latest| - 1], db[0].key) == latest[|latest| - 1]
    ensures var rest := PageFrom(db[1..], cursor, remaining - |latest|, LastOr(latest, next));
      PageFrom(db, cursor, remaining, next) == Page(latest + rest.results, rest.next)
  {}

  // ----- what the specification itself says -----

  // The rows ahead of a cursor are those with a larger id, or all of them without a cursor.
  lemma {:induction false} BeyondMembers(rows: seq<Id>, cursor: Id, id: Id)
    ensures id in Beyond(rows, cursor) <==> id in rows && id > cursor
  {
    if rows != [] { BeyondMembers(rows[1..], cursor, id); }
  }

  lemma {:induction false} AllRowsMembers(db: seq<Shard>, id: Id)
    ensures id in AllRows(db) <==> exists i :: 0 <= i < |db| && id in db[i].rows
  {
    if db != [] {
      AllRowsMembers(db[1..], id);
      assert forall i :: 0 <= i < |db[1..]| ==> db[1..][i] == db[i + 1];
      if i :| 0 <= i < |db| && id in db[i].rows { assert i > 0 ==> db[1..][i - 1] == db[i]; }
    }
  }

  // A page is full: it is the beginning of the rows ahead, as long as the limit allows.
  lemma PageIsFull(db: seq<Shard>, cursor: Id, limit: nat, id: Id)
    requires WellPlaced(db)
    ensures var page := PageFrom(db, cursor, limit, None).results;
      && page <= Remaining(db, cursor)
      && |page| == (if |Remaining(db, cursor)| < limit then |Remaining(db, cursor)| else limit)
    ensures id in Remaining(db, cursor) <==> (cursor == 0 || id > cursor) && exists i :: 0 <= i < |db| && id in db[i].rows
  {
    PageIsExact(db, cursor, limit, None);
    BeyondMembers(AllRows(db), cursor, id);
    AllRowsMembers(db, id);
  }

  // The repair makes an id without a shard name the shard it was found on, and leaves others alone.
  lemma RepairNamesShard(id: Id, key: nat)
    ensures ShardKeyForId(id) == 0 ==> ShardKeyForId(Repaired(id, key)) == key && Repaired(id, key) % SHARD_SPAN == id
    ensures ShardKeyForId(id) != 0 ==> Repaired(id, key) == id
  {}

  // ----- following the cursor -----

  lemma {:induction false} RowsOnShards(db: seq<Shard>, id: Id)
    requires id in AllRows(db)
    ensures exists i :: 0 <= i < |db| && id in db[i].rows
  {
    if id !in db[0].rows {
      RowsOnShards(db[1..], id);
      var i :| 0 <= i < |db[1..]| && id in db[1..][i].rows;
      assert db[i + 1] == db[1..][i];
    }
  }

  lemma AscendingConcat(a: seq<Id>, b: seq<Id>)
    requires Ascending(a) && Ascending(b) && forall j, id :: 0 <= j < |b| && id in a ==> id < b[j]
    ensures Ascending(a + b)
  {
    var c := a + b;
    forall i, j | 0 <= i < j < |c| ensures c[i] < c[j] {
      if i < |a| <= j { assert c[i] in a && c[j] == b[j - |a|]; }
    }
  }

  // Shard order is id order.
  lemma {:induction false} AllRowsAscending(db: seq<Shard>)
    requires WellPlaced(db)
    ensures Ascending(AllRows(db))
  {
    if db != [] {
      WellPlacedRest(db);
      AllRowsAscending(db[1..]);
      var rest := AllRows(db[1..]);
      assert Ascending(db[0].rows);
      forall j, id | 0 <= j < |rest| && id in db[0].rows ensures id < rest[j] {
        RowsOnShards(db[1..], rest[j]);
        var i :| 0 <= i < |db[1..]| && rest[j] in db[1..][i].rows;
        assert db[1..][i] == db[i + 1] && ShardKeyForId(rest[j]) == db[i + 1].key;
      }
      AscendingConcat(db[0].rows, rest);
    }
  }

  lemma {:induction false} BeyondIsSuffix(rows: seq<Id>, k: nat)
    requires Ascending(rows) && k < |rows|
    ensures Beyond(rows, rows[k]) == rows[k + 1..]
  {
    var a, b := rows[..k + 1], rows[k + 1..];
    assert rows == a + b;
    BeyondConcat(a, b, rows[k]);
    BeyondAllOrNone(a, rows[k]);
    BeyondAllOrNone(b, rows[k]);
  }

  // The rows ahead of any cursor are the end of the list.
  lemma {:induction false} BeyondStarts(rows: seq<Id>, cursor: Id) returns (k: nat)
    requires Ascending(rows)
    ensures k <= |rows| && Beyond(rows, cursor) == rows[k..]
  {
    if rows == [] || rows[0] > cursor {
      k := 0;
      forall id | id in rows ensures id > cursor {}
      BeyondAllOrNone(rows, cursor);
    } else {
      k := BeyondStarts(rows[1..], cursor);
      k := k + 1;
    }
  }

  // The rows ahead of the next cursor are those ahead of this one without the page.
  lemma NextCursorAdvances(db: seq<Shard>, cursor: Id, n: nat)
    requires WellPlaced(db) && 0 < n <= |Remaining(db, cursor)| && Remaining(db, cursor)[n - 1] != 0
    ensures Remaining(db, Remaining(db, cursor)[n - 1]) == Remaining(db, cursor)[n..]
  {
    AllRowsAscending(db);
    var rows := AllRows(db);
    var k := AheadStarts(rows, cursor);
    Slices(rows, k, n);
    BeyondIsSuffix(rows, k + n - 1);
  }

  lemma AheadStarts(rows: seq<Id>, cursor: Id) returns (k: nat)
    requires Ascending(rows)
    ensures k <= |rows| && Ahead(rows, cursor) == rows[k..]
  {
    k := 0;
    if cursor != 0 { k := BeyondStarts(rows, cursor); }
  }

  lemma Slices(rows: seq<Id>, k: nat, n: nat)
    requires 0 < n && k + n <= |rows|
    ensures rows[k..][n - 1] == rows[k + n - 1] && rows[k..][n..] == rows[k + n..]
  {}

  // A cursor of 0 starts over, so a first page that ends in id 0 leads back to itself. That takes
  // a row with id 0 that fills the page or is the only row.
  predicate Stuck(db: seq<Shard>, limit: nat) {
    0 in AllRows(db) && (limit == 1 || |AllRows(db)| == 1)
  }

  lemma LastIsZeroOnlyIfStuck(db: seq<Shard>, cursor: Id, limit: nat)
    requires WellPlaced(db) && limit >= 1 && Remaining(db, cursor) != []
    ensures var page := First(limit, Remaining(db, cursor));
      page[|page| - 1] == 0 <==> cursor == 0 && Stuck(db, limit)
  {
    AllRowsAscending(db);
    var rows := AllRows(db);
    var k := AheadStarts(rows, cursor);
    LastIsZero(rows, k, limit);
    if cursor != 0 { AheadIsAbove(rows, cursor, k); }
  }

  lemma LastIsZero(rows: seq<Id>, k: nat, limit: nat)
    requires Ascending(rows) && k < |rows| && limit >= 1
    ensures var page := First(limit, rows[k..]);
      page[|page| - 1] == 0 <==> k == 0 && 0 in rows && (limit == 1 || |rows| == 1)
    ensures rows[k] > 0 ==> First(limit, rows[k..])[|First(limit, rows[k..])| - 1] > 0
  {
    var n := |First(limit, rows[k..])|;
    assert First(limit, rows[k..])[n - 1] == rows[k + n - 1];
    if 0 in rows {
      var i :| 0 <= i < |rows| && rows[i] == 0;
      assert i == 0;
    }
    if rows[k + n - 1] == 0 {
      assert rows[k + n - 1] in rows;
      assert k + n - 1 == 0;
    }
  }

  lemma AheadIsAbove(rows: seq<Id>, cursor: Id, k: nat)
    requires cursor != 0 && k < |rows| && Ahead(rows, cursor) == rows[k..]
    ensures rows[k] > 0
  {
    assert rows[k..][0] == rows[k];
    BeyondIsAbove(rows, cursor, rows[k]);
  }

  lemma {:induction false} BeyondIsAbove(rows: seq<Id>, cursor: Id, id: Id)
    requires id in Beyond(rows, cursor)
    ensures id > cursor
  {
    if rows[0] <= cursor || id != rows[0] { BeyondIsAbove(rows[1..], cursor, id); }
  }

  // The pages a client sees that asks again with the cursor it was given until it is given none.
  function Follow(db: seq<Shard>, cursor: Id, limit: nat): (pages: seq<seq<Id>>)
    requires WellPlaced(db) && limit >= 1 && !(cursor == 0 && Stuck(db, limit))
    decreases |Remaining(db, cursor)|
  {
    var page := PageFrom(db, cursor, limit, None);
    PageIsExact(db, cursor, limit, None);
    if page.next.None? then [] else
    LastIsZeroOnlyIfStuck(db, cursor, limit);
    NextCursorAdvances(db, cursor, |page.results|);
    [page.results] + Follow(db, page.next.value, limit)
  }

  function Flatten(pages: seq<seq<Id>>): seq<Id> {
    if pages == [] then [] else pages[0] + Flatten(pages[1..])
  }

  lemma {:induction false} FollowReadsRest(db: seq<Shard>, cursor: Id, limit: nat)
    requires WellPlaced(db) && limit >= 1 && !(cursor == 0 && Stuck(db, limit))
    ensures Flatten(Follow(db, cursor, limit)) == Remaining(db, cursor)
    ensures forall p :: p in Follow(db, cursor, limit) ==> 0 < |p| <= limit
    decreases |Remaining(db, cursor)|
  {
    PageIsExact(db, cursor, limit, None);
    var page := PageFrom(db, cursor, limit, None);
    if page.next.Some? {
      LastIsZeroOnlyIfStuck(db, cursor, limit);
      NextCursorAdvances(db, cursor, |page.results|);
      FollowReadsRest(db, page.next.value, limit);
      var rest := Follow(db, page.next.value, limit);
      assert Follow(db, cursor, limit) == [page.results] + rest;
      FlattenCons(page.results, rest);
      FirstSplits(limit, Remaining(db, cursor));
    }
  }

  lemma FlattenCons(page: seq<Id>, pages: seq<seq<Id>>)
    ensures Flatten([page] + pages) == page + Flatten(pages)
    ensures forall p :: p in [page] + pages ==> p == page || p in pages
  {
    assert ([page] + pages)[1..] == pages;
  }

  lemma FirstSplits(n: nat, rows: seq<Id>)
    ensures First(n, rows) + rows[|First(n, rows)|..] == rows
  {}

  // Following the cursor from 0 visits every row of every shard exactly once, in ascending order,
  // in nonempty pages no longer than the limit.
  lemma FollowVisitsEveryRowOnce(db: seq<Shard>, limit: nat)
    requires WellPlaced(db) && limit >= 1 && !Stuck(db, limit)
    ensures Flatten(Follow(db, 0, limit)) == AllRows(db) && Ascending(AllRows(db))
    ensures forall p :: p in Follow(db, 0, limit) ==> 0 < |p| <= limit
  {
    FollowReadsRest(db, 0, limit);
    AllRowsAscending(db);
  }

  // Exactly otherwise the first page leads back to itself.
  lemma StuckIff(db: seq<Shard>, limit: nat)
    requires WellPlaced(db) && limit >= 1
    ensures PageFrom(db, 0, limit, None).next == Some(0) <==> Stuck(db, limit)
  {
    PageIsExact(db, 0, limit, None);
    if AllRows(db) != [] { LastIsZeroOnlyIfStuck(db, 0, limit); }
  }
}
