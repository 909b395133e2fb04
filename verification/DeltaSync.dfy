// The delta API (inbox/transactions/delta_sync.py): clients rebuild the objects of a namespace
// from its transaction log with a moving pointer.
module DeltaSync {
  import opened Common

  type TransactionId = nat
  type Value = int                 // the API representation of an object

  datatype Key = Key(objectType: string, record: nat)
  datatype Command = Insert | Update | Delete

  // An entry of the log of one namespace; entries of other namespaces only leave gaps in the ids.
  datatype Transaction = Transaction(id: TransactionId, key: Key, command: Command, createdAt: int)

  type Log = seq<Transaction>
  type Table = map<Key, Value>

  datatype Filter = Filter(excluded: set<string>, only: Option<set<string>>)

  predicate Visible(f: Filter, k: Key) {
    k.objectType !in f.excluded && (f.only.Some? ==> k.objectType in f.only.value)
  }

  // The exclude_*/include_types arguments of format_transactions_after_pointer.
  function FilterFor(excludeTypes: set<string>, includeTypes: Option<set<string>>, excludeFolders: bool,
                     excludeMetadata: bool, excludeAccount: bool): Filter {
    Filter(excludeTypes + (if excludeFolders then {"folder", "label"} else {})
                        + (if excludeAccount then {"account"} else {})
                        + (if excludeMetadata then {"metadata"} else {}),
           if includeTypes.Some? then Some(includeTypes.value - {"metadata"}) else None)
  }

  // ----- the log -----

  ghost predicate LogOK(log: Log) {
    && (forall i :: 0 <= i < |log| ==> log[i].id > 0)
    && (forall i, j :: 0 <= i < j < |log| ==> log[i].id < log[j].id && log[i].createdAt <= log[j].createdAt)
  }

  function LastId(log: Log): TransactionId {
    if log == [] then 0 else log[|log| - 1].id
  }

  // The last entry about an object.
  function LastEntry(log: Log, k: Key): Option<Transaction> {
    if log == [] then None
    else if log[|log| - 1].key == k then Some(log[|log| - 1])
    else LastEntry(log[..|log| - 1], k)
  }

  function LastIdOf(log: Log, k: Key): TransactionId {
    match LastEntry(log, k) case None => 0 case Some(e) => e.id
  }

  // Every write is logged in its own commit: an object exists exactly if its last entry is not a
  // deletion.
  ghost predicate Logged(log: Log, table: Table) {
    forall k :: k in table <==> LastEntry(log, k).Some? && LastEntry(log, k).value.command != Delete
  }

  // A commit that writes or removes one object, with its entry.
  lemma CommitIsLogged(log: Log, table: Table, table': Table, e: Transaction)
    requires Logged(log, table)
    requires forall k :: k != e.key ==> (k in table' <==> k in table)
    requires e.key in table' <==> e.command != Delete
    ensures Logged(log + [e], table')
    ensures forall k :: LastEntry(log + [e], k) == if k == e.key then Some(e) else LastEntry(log, k)
  {
    assert (log + [e])[..|log|] == log;
    forall k ensures LastEntry(log + [e], k) == if k == e.key then Some(e) else LastEntry(log, k) {}
  }

  // ----- one poll -----

  function Pending(log: Log, pointer: TransactionId, f: Filter): seq<Transaction> {
    if log == [] then []
    else if log[0].id > pointer && Visible(f, log[0].key) then [log[0]] + Pending(log[1..], pointer, f)
    else Pending(log[1..], pointer, f)
  }

  // The query: the first `limit` visible entries after the pointer, in id order.
  function Window(log: Log, pointer: TransactionId, limit: nat, f: Filter): seq<Transaction> {
    var all := Pending(log, pointer, f);
    if |all| <= limit then all else all[..limit]
  }

  predicate SameSlot(a: Transaction, b: Transaction) { a.key == b.key && a.command == b.command }

  predicate Superseded(e: Transaction, later: seq<Transaction>) {
    exists i :: 0 <= i < |later| && SameSlot(later[i], e)
  }

  // The latest entry per (type, record, command), in id order.
  function Rollup(w: seq<Transaction>): seq<Transaction> {
    if w == [] then []
    else if Superseded(w[0], w[1..]) then Rollup(w[1..])
    else [w[0]] + Rollup(w[1..])
  }

  // EVENT_NAME_FOR_COMMAND
  datatype EventName = Create | Modify | Deletion

  function EventFor(command: Command): EventName {
    match command case Insert => Create case Update => Modify case Delete => Deletion
  }

  datatype Delta = Delta(key: Key, event: EventName, cursor: TransactionId, attributes: Option<Value>)

  // An entry whose object is gone has nothing to show unless it is the deletion.
  predicate Shown(e: Transaction, table: Table) { e.command == Delete || e.key in table }

  function DeltaFor(e: Transaction, table: Table): Delta
    requires Shown(e, table)
  {
    Delta(e.key, EventFor(e.command), e.id, if e.command == Delete then None else Some(table[e.key]))
  }

  function Deltas(es: seq<Transaction>, table: Table): seq<Delta> {
    if es == [] then []
    else if Shown(es[0], table) then [DeltaFor(es[0], table)] + Deltas(es[1..], table)
    else Deltas(es[1..], table)
  }

  // The scanning loop of format_transactions_after_pointer.
  function Scan(log: Log, table: Table, pointer: TransactionId, limit: nat, f: Filter): (seq<Delta>, TransactionId)
    decreases |Pending(log, pointer, f)|
  {
    var w := Window(log, pointer, limit, f);
    if w == [] then ([], pointer)
    else
      var ds := Deltas(Rollup(w), table);
      if ds != [] then (ds, ds[|ds| - 1].cursor)
      else
        PendingShrinks(log, pointer, limit, f);
        Scan(log, table, w[|w| - 1].id, limit, f)
  }

  datatype PollError = NoResultFound    // the namespace has no transaction at all

  function Poll(log: Log, table: Table, pointer: TransactionId, limit: nat, f: Filter): Result<(seq<Delta>, TransactionId), PollError> {
    if log == [] then Err(NoResultFound)
    else if LastId(log) == pointer then Ok(([], pointer))
    else Ok(Scan(log, table, pointer, limit, f))
  }

  // ----- the client -----

  // The client goes by the event: a deletion removes the object, the others carry its value.
  function ApplyDelta(copy: Table, d: Delta): Table {
    match d.event
    case Deletion => copy - {d.key}
    case _ => if d.attributes.Some? then copy[d.key := d.attributes.value] else copy
  }

  function Apply(copy: Table, ds: seq<Delta>): Table
    decreases ds
  {
    if ds == [] then copy else Apply(ApplyDelta(copy, ds[0]), ds[1..])
  }

  function Lookup(t: Table, k: Key): Option<Value> { if k in t then Some(t[k]) else None }

  // ----- windows -----

  lemma {:induction false} PendingMembers(log: Log, pointer: TransactionId, f: Filter, e: Transaction)
    ensures e in Pending(log, pointer, f) <==> e in log && e.id > pointer && Visible(f, e.key)
  {
    if log != [] { PendingMembers(log[1..], pointer, f, e); }
  }

  lemma {:induction false} PendingLater(log: Log, p: TransactionId, q: TransactionId, f: Filter)
    requires p <= q
    ensures |Pending(log, q, f)| <= |Pending(log, p, f)|
    ensures (exists e :: e in Pending(log, p, f) && e.id <= q) ==> |Pending(log, q, f)| < |Pending(log, p, f)|
  {
    if log != [] {
      PendingLater(log[1..], p, q, f);
      if e :| e in Pending(log, p, f) && e.id <= q && e != log[0] { assert e in Pending(log[1..], p, f); }
    }
  }

  lemma PendingShrinks(log: Log, pointer: TransactionId, limit: nat, f: Filter)
    requires Window(log, pointer, limit, f) != []
    ensures var w := Window(log, pointer, limit, f);
      |Pending(log, w[|w| - 1].id, f)| < |Pending(log, pointer, f)|
  {
    var w := Window(log, pointer, limit, f);
    var e := w[|w| - 1];
    assert e in Pending(log, pointer, f);
    PendingMembers(log, pointer, f, e);
    PendingLater(log, pointer, e.id, f);
  }
}
