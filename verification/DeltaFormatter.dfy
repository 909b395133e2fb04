// format_transactions_after_pointer and get_transaction_cursor_near_timestamp as the code
// computes them (inbox/transactions/delta_sync.py).
module DeltaFormatter {
  import opened Common
  import opened DeltaSync
  import opened DeltaConvergence

  datatype Slot = Slot(key: Key, command: Command)

  function SlotOf(e: Transaction): Slot { Slot(e.key, e.command) }

  // ----- the dictionary of latest transactions -----

  lemma FirstIsIn(b: seq<Transaction>)
    requires b != []
    ensures b[0] in b
  {}

  // Two ascending sequences with the same entries are the same.
  lemma {:induction false} AscendingIsUnique(a: seq<Transaction>, b: seq<Transaction>)
    requires Ascending(a) && Ascending(b) && forall e :: e in a <==> e in b
    ensures a == b
  {
    if a == [] {
      if b != [] { FirstIsIn(b); }
    } else {
      assert a[0] in a && a[0] in b;
      assert b[0] in b && b[0] in a;
      assert a[0] == b[0];
      forall e ensures e in a[1..] <==> e in b[1..] {
        TailMembers(a, e);
        TailMembers(b, e);
      }
      AscendingIsUnique(a[1..], b[1..]);
      assert a == [a[0]] + a[1..] && b == [b[0]] + b[1..];
    }
  }

  lemma TailMembers(a: seq<Transaction>, e: Transaction)
    requires Ascending(a) && a != []
    ensures e in a[1..] <==> e in a && e != a[0]
  {
    assert a == [a[0]] + a[1..];
    if e in a[1..] {
      var i :| 0 <= i < |a[1..]| && a[1..][i] == e;
      assert a[i + 1] == e;
    }
  }

  // An entry survives the rollup exactly if it is the last one of its slot.
  lemma {:induction false} RollupMembers(w: seq<Transaction>, e: Transaction)
    requires Ascending(w)
    ensures e in Rollup(w) <==> e in w && forall x :: x in w && SameSlot(x, e) ==> x.id <= e.id
  {
    if w != [] {
      RollupMembers(w[1..], e);
      assert w == [w[0]] + w[1..];
      assert forall i :: 0 <= i < |w[1..]| ==> w[1..][i] == w[i + 1] && w[0].id < w[1..][i].id;
    }
  }

  // {(record, command): trx} built in id order: a later entry of a slot replaces an earlier one.
  method LatestTransactions(transactions: seq<Transaction>) returns (latest: map<Slot, Transaction>)
    requires Ascending(transactions)
    ensures forall e :: e in transactions ==> SlotOf(e) in latest
    ensures forall s :: s in latest ==> latest[s] in transactions && SlotOf(latest[s]) == s
    ensures forall e :: e in transactions ==> e.id <= latest[SlotOf(e)].id
  {
    latest := map[];
    var n := 0;
    while n < |transactions|
      invariant n <= |transactions|
      invariant forall i :: 0 <= i < n ==> SlotOf(transactions[i]) in latest && transactions[i].id <= latest[SlotOf(transactions[i])].id
      invariant forall s :: s in latest ==> latest[s] in transactions[..n] && SlotOf(latest[s]) == s
    {
      var e := transactions[n];
      latest := latest[SlotOf(e) := e];
      assert transactions[..n + 1] == transactions[..n] + [e];
      n := n + 1;
    }
  }

  // Sorting the values of the dictionary by transaction id.
  method SortById(entries: set<Transaction>) returns (sorted: seq<Transaction>)
    requires forall a, b :: a in entries && b in entries && a.id == b.id ==> a == b
    ensures Ascending(sorted) && forall e :: e in sorted <==> e in entries
  {
    sorted := [];
    var rest := entries;
    while rest != {}
      invariant rest <= entries && Ascending(sorted)
      invariant forall e :: e in sorted <==> e in entries && e !in rest
      invariant forall a, b :: a in sorted && b in rest ==> a.id < b.id
      decreases |rest|
    {
      var e := LeastId(rest);
      rest := rest - {e};
      forall i | 0 <= i < |sorted| ensures sorted[i].id < e.id { assert sorted[i] in sorted; }
      sorted := sorted + [e];
    }
  }

  method LeastId(entries: set<Transaction>) returns (least: Transaction)
    requires entries != {}
    ensures least in entries && forall e :: e in entries ==> least.id <= e.id
  {
    least :| least in entries;
    var rest := entries - {least};
    while rest != {}
      invariant rest <= entries && least in entries
      invariant forall e :: e in entries && e !in rest ==> least.id <= e.id
      decreases |rest|
    {
      var e :| e in rest;
      if e.id < least.id { least := e; }
      rest := rest - {e};
    }
  }

  method RollUp(transactions: seq<Transaction>) returns (rolled: seq<Transaction>)
    requires Ascending(transactions)
    ensures rolled == Rollup(transactions)
  {
    var latest := LatestTransactions(transactions);
    var values := set s | s in latest :: latest[s];
    assert forall s :: s in latest ==> latest[s] in values;
    rolled := SortById(values);
    RollupWithin(transactions);
    forall e ensures e in rolled <==> e in Rollup(transactions) {
      RollupMembers(transactions, e);
      if e in transactions {
        var last := latest[SlotOf(e)];
        if e in Rollup(transactions) { SameIdSameEntry(transactions, e, last); }
      }
    }
    AscendingIsUnique(rolled, Rollup(transactions));
  }

  method FormatDeltas(rolled: seq<Transaction>, table: Table) returns (deltas: seq<Delta>)
    ensures deltas == Deltas(rolled, table)
  {
    deltas := [];
    var n := 0;
    while n < |rolled|
      invariant n <= |rolled|
      invariant Deltas(rolled, table) == deltas + Deltas(rolled[n..], table)
    {
      assert rolled[n..][1..] == rolled[n + 1..];
      if Shown(rolled[n], table) { deltas := deltas + [DeltaFor(rolled[n], table)]; }
      n := n + 1;
    }
  }

  // What the arguments let through: metadata only if it is not excluded and no list of types is
  // given, even if it is on the list.
  lemma VisibleIff(excludeTypes: set<string>, includeTypes: Option<set<string>>, excludeFolders: bool, excludeMetadata: bool,
                   excludeAccount: bool, k: Key)
    ensures Visible(FilterFor(excludeTypes, includeTypes, excludeFolders, excludeMetadata, excludeAccount), k) <==>
      && k.objectType !in excludeTypes && (includeTypes.Some? ==> k.objectType in includeTypes.value)
      && (k.objectType == "folder" || k.objectType == "label" ==> !excludeFolders)
      && (k.objectType == "account" ==> !excludeAccount)
      && (k.objectType == "metadata" ==> !excludeMetadata && includeTypes.None?)
  {}

  method FormatTransactionsAfterPointer(log: Log, table: Table, startPointer: TransactionId, limit: nat, excludeTypes: set<string>,
                                        includeTypes: Option<set<string>>, excludeFolders: bool, excludeMetadata: bool, excludeAccount: bool)
      returns (r: Result<(seq<Delta>, TransactionId), PollError>)
    requires LogOK(log)
    ensures r == Poll(log, table, startPointer, limit,
                      FilterFor(excludeTypes, includeTypes, excludeFolders, excludeMetadata, excludeAccount))
  {
    var f := FilterFor(excludeTypes, includeTypes, excludeFolders, excludeMetadata, excludeAccount);
    r := ScanLog(log, table, startPointer, limit, f);
  }

  method ScanLog(log: Log, table: Table, startPointer: TransactionId, limit: nat, f: Filter)
      returns (r: Result<(seq<Delta>, TransactionId), PollError>)
    requires LogOK(log)
    ensures r == Poll(log, table, startPointer, limit, f)
  {
    if log == [] { return Err(NoResultFound); }
    if log[|log| - 1].id == startPointer { return Ok(([], startPointer)); }
    var pointer := startPointer;
    while true
      invariant Scan(log, table, startPointer, limit, f) == Scan(log, table, pointer, limit, f)
      decreases |Pending(log, pointer, f)|
    {
      var transactions := Window(log, pointer, limit, f);
      if transactions == [] { return Ok(([], pointer)); }
      WindowMembers(log, pointer, limit, f, transactions[0]);
      var rolled := RollUp(transactions);
      var deltas := FormatDeltas(rolled, table);
      if deltas != [] { return Ok((deltas, deltas[|deltas| - 1].cursor)); }
      PendingShrinks(log, pointer, limit, f);
      pointer := transactions[|transactions| - 1].id;
    }
  }

  // ----- a cursor for a point in time -----

  // The largest created_at before dt.
  function LatestTimestamp(log: Log, dt: int): Option<int> {
    if log == [] then None else
    var e := log[|log| - 1];
    var rest := LatestTimestamp(log[..|log| - 1], dt);
    if e.createdAt < dt && (rest == None || e.createdAt > rest.value) then Some(e.createdAt) else rest
  }

  // The largest id with that created_at.
  function LastAt(log: Log, at: int): TransactionId {
    if log == [] then 0 else
    var e := log[|log| - 1];
    var rest := LastAt(log[..|log| - 1], at);
    if e.createdAt == at && e.id > rest then e.id else rest
  }

  // get_transaction_cursor_near_timestamp, with 0 for the cursor '0'
  function CursorNear(log: Log, dt: int): TransactionId {
    match LatestTimestamp(log, dt) case None => 0 case Some(at) => LastAt(log, at)
  }

  lemma {:induction false} LatestTimestampIsLargest(log: Log, dt: int)
    ensures var r := LatestTimestamp(log, dt);
      && (r.Some? ==> r.value < dt && exists e :: e in log && e.createdAt == r.value)
      && (forall e :: e in log && e.createdAt < dt ==> r.Some? && e.createdAt <= r.value)
  {
    if log != [] {
      var n := |log| - 1;
      LatestTimestampIsLargest(log[..n], dt);
      assert log == log[..n] + [log[n]];
      assert log[n] in log;
    }
  }

  lemma {:induction false} LastAtIsLargest(log: Log, at: int, e: Transaction)
    requires e in log && e.createdAt == at
    ensures e.id <= LastAt(log, at)
  {
    var n := |log| - 1;
    assert log == log[..n] + [log[n]];
    if e in log[..n] { LastAtIsLargest(log[..n], at, e); }
  }

  lemma {:induction false} LastAtIsThere(log: Log, at: int) returns (e: Transaction)
    requires LastAt(log, at) > 0
    ensures e in log && e.createdAt == at && e.id == LastAt(log, at)
  {
    var n := |log| - 1;
    if LastAt(log[..n], at) == LastAt(log, at) { e := LastAtIsThere(log[..n], at); } else { e := log[n]; }
  }

  // The cursor splits the log at dt: what it has passed is exactly what was created before dt.
  lemma CursorSplitsLog(log: Log, dt: int, e: Transaction)
    requires LogOK(log) && e in log
    ensures e.id <= CursorNear(log, dt) <==> e.createdAt < dt
  {
    LatestTimestampIsLargest(log, dt);
    var i :| 0 <= i < |log| && log[i] == e;
    match LatestTimestamp(log, dt)
    case None =>
    case Some(at) =>
      var y :| y in log && y.createdAt == at;
      LastAtIsLargest(log, at, y);
      var x := LastAtIsThere(log, at);
      if e.createdAt == at { LastAtIsLargest(log, at, e); }
      var j :| 0 <= j < |log| && log[j] == x;
  }
}
