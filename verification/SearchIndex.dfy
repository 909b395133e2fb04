// The contact search index (inbox/transactions/search.py) follows the transaction log of each
// shard with a pointer that it persists after every uploaded chunk.
module SearchIndex {
  import opened Common
  import opened DeltaSync
  import opened DeltaConvergence

  // Only transactions of contacts are indexed.
  const CONTACTS := Filter({}, Some({"contact"}))

  predicate IsContact(k: Key) { Visible(CONTACTS, k) }

  // ----- one chunk -----

  datatype Doc = DeleteDoc(key: Key) | AddDoc(key: Key, fields: Value)

  function ApplyDoc(index: Table, d: Doc): Table {
    match d case DeleteDoc(k) => index - {k} case AddDoc(k, v) => index[k := v]
  }

  function ApplyDocs(index: Table, docs: seq<Doc>): Table {
    if docs == [] then index else ApplyDoc(ApplyDocs(index, docs[..|docs| - 1]), docs[|docs| - 1])
  }

  function Deleted(chunk: seq<Transaction>): set<Key> { set e | e in chunk && e.command == Delete :: e.key }

  function Added(chunk: seq<Transaction>): set<Key> { set e | e in chunk && e.command != Delete :: e.key }

  // What uploading a chunk makes of the index: deletions first, then the current value of every
  // added or updated contact that still exists.
  function Upload(index: Table, chunk: seq<Transaction>, table: Table): Table {
    map k | k in index.Keys + (Added(chunk) * table.Keys) && (k !in Deleted(chunk) || k in Added(chunk) * table.Keys)
      :: if k in Added(chunk) && k in table then table[k] else index[k]
  }

  lemma UploadAt(index: Table, chunk: seq<Transaction>, table: Table, k: Key)
    ensures Lookup(Upload(index, chunk, table), k) ==
      if k in Added(chunk) && k in table then Some(table[k])
      else if k in Deleted(chunk) then None
      else Lookup(index, k)
  {}

  // ----- the loops of index() -----

  method DeleteDocs(chunk: seq<Transaction>, ghost index: Table) returns (docs: seq<Doc>)
    ensures ApplyDocs(index, docs) == index - Deleted(chunk)
  {
    docs := [];
    var n := 0;
    while n < |chunk|
      invariant n <= |chunk|
      invariant ApplyDocs(index, docs) == index - Deleted(chunk[..n])
    {
      var e := chunk[n];
      DeletedSnoc(chunk, n);
      if e.command == Delete {
        assert (docs + [DeleteDoc(e.key)])[..|docs|] == docs;
        docs := docs + [DeleteDoc(e.key)];
      }
      n := n + 1;
    }
    assert chunk[..n] == chunk;
  }

  // The documents of one upload: whatever order the query returns the contacts in, they turn the
  // index into Upload(index, chunk, table).
  method BuildDocs(chunk: seq<Transaction>, table: Table, ghost index: Table) returns (docs: seq<Doc>)
    ensures ApplyDocs(index, docs) == Upload(index, chunk, table)
  {
    docs := DeleteDocs(chunk, index);
    var rest := Added(chunk) * table.Keys;
    ghost var done: set<Key> := {};
    assert (index - Deleted(chunk)) + Restrict(table, done) == index - Deleted(chunk);
    while rest != {}
      invariant rest + done == Added(chunk) * table.Keys
      invariant ApplyDocs(index, docs) == (index - Deleted(chunk)) + Restrict(table, done)
      decreases |rest|
    {
      var k :| k in rest;
      assert (docs + [AddDoc(k, table[k])])[..|docs|] == docs;
      RestrictGrows(index - Deleted(chunk), table, done, k);
      docs, rest, done := docs + [AddDoc(k, table[k])], rest - {k}, done + {k};
    }
    assert done == Added(chunk) * table.Keys;
    DeleteThenAdd(index, chunk, table);
  }

  lemma DeleteThenAdd(index: Table, chunk: seq<Transaction>, table: Table)
    ensures (index - Deleted(chunk)) + Restrict(table, Added(chunk) * table.Keys) == Upload(index, chunk, table)
  {
    var a, b := (index - Deleted(chunk)) + Restrict(table, Added(chunk) * table.Keys), Upload(index, chunk, table);
    forall k ensures Lookup(a, k) == Lookup(b, k) { UploadAt(index, chunk, table, k); }
    SameLookup(a, b);
  }

  function Restrict(table: Table, ks: set<Key>): Table {
    map k | k in ks && k in table :: table[k]
  }

  lemma RestrictGrows(base: Table, table: Table, ks: set<Key>, k: Key)
    requires k in table
    ensures base + Restrict(table, ks + {k}) == (base + Restrict(table, ks))[k := table[k]]
  {}

  lemma DeletedSnoc(chunk: seq<Transaction>, n: nat)
    requires n < |chunk|
    ensures Deleted(chunk[..n + 1]) == Deleted(chunk[..n]) + if chunk[n].command == Delete then {chunk[n].key} else {}
  {
    assert chunk[..n + 1] == chunk[..n] + [chunk[n]];
  }

  // ----- runs over one shard -----

  // `start` is where the service began when it found no persisted pointer; earlier transactions
  // are left to a separate backfill.
  datatype Shard = Shard(log: Log, table: Table, index: Table, persisted: Option<TransactionId>,
                         pointer: TransactionId, start: TransactionId)

  datatype Step =
    | Write(key: Key, value: Value, id: TransactionId, at: int)
    | Remove(key: Key, id: TransactionId, at: int)
    | Round(chunkSize: nat)             // index a chunk, move the pointer and commit
    | UploadAndCrash(chunkSize: nat)    // the upload arrives but the commit does not
    | Restart

  predicate Enabled(s: Shard, step: Step) {
    match step
    case Write(_, _, id, at) => id > LastId(s.log) && (s.log == [] || at >= s.log[|s.log| - 1].createdAt)
    case Remove(k, id, at) => k in s.table && id > LastId(s.log) && (s.log == [] || at >= s.log[|s.log| - 1].createdAt)
    case _ => true
  }

  // _set_transaction_pointers
  function Restarted(s: Shard): Shard {
    if s.persisted.Some? then s.(pointer := s.persisted.value)
    else s.(pointer := LastId(s.log), start := LastId(s.log))
  }

  // A service that has run before resumes where it stopped; one that has not leaves everything
  // logged so far to the backfill and indexes exactly what comes after.
  lemma WhereItStarts(s: Shard, e: Transaction)
    requires LogOK(s.log) && e in s.log
    ensures s.persisted.Some? ==> Restarted(s).pointer == s.persisted.value && Restarted(s).start == s.start
    ensures s.persisted.None? ==>
      e.id <= Restarted(s).pointer && Restarted(s).start == Restarted(s).pointer && exists x :: x in s.log && x.id == Restarted(s).pointer
  {
    var i :| 0 <= i < |s.log| && s.log[i] == e;
    assert s.log[|s.log| - 1] in s.log;
  }

  // One shard of _index_transactions
  function Indexed(s: Shard, chunkSize: nat): Shard {
    var chunk := Window(s.log, s.pointer, chunkSize, CONTACTS);
    if chunk == [] then s
    else s.(index := Upload(s.index, chunk, s.table), pointer := chunk[|chunk| - 1].id, persisted := Some(chunk[|chunk| - 1].id))
  }

  function Do(s: Shard, step: Step): Shard
    requires Enabled(s, step)
  {
    match step
    case Write(k, v, id, at) =>
      s.(table := s.table[k := v], log := s.log + [Transaction(id, k, if k in s.table then Update else Insert, at)])
    case Remove(k, id, at) =>
      s.(table := s.table - {k}, log := s.log + [Transaction(id, k, Delete, at)])
    case Round(chunkSize) => Indexed(s, chunkSize)
    case UploadAndCrash(chunkSize) => Restarted(s.(index := Indexed(s, chunkSize).index))
    case Restart => Restarted(s)
  }

  ghost predicate IsRun(states: seq<Shard>, steps: seq<Step>) {
    && |states| == |steps| + 1
    && states[0] == Shard([], map[], map[], None, 0, 0)
    && forall i :: 0 <= i < |steps| ==> Enabled(states[i], steps[i]) && states[i + 1] == Do(states[i], steps[i])
  }

  ghost predicate IndexAgrees(s: Shard) {
    forall k :: IsContact(k) && s.start < LastIdOf(s.log, k) <= s.pointer ==> Lookup(s.index, k) == Lookup(s.table, k)
  }

  ghost predicate Inv(s: Shard) {
    && LogOK(s.log) && Logged(s.log, s.table)
    && s.start <= s.pointer <= LastId(s.log)
    && s.pointer == (if s.persisted.Some? then s.persisted.value else s.start)
    && IndexAgrees(s)
  }

  // Uploading a chunk settles every contact whose last transaction is in it and touches no
  // contact whose last transaction came before it.
  lemma ChunkSettles(s: Shard, chunkSize: nat, k: Key)
    requires LogOK(s.log) && Logged(s.log, s.table) && IsContact(k)
    requires Window(s.log, s.pointer, chunkSize, CONTACTS) != []
    ensures var s' := Indexed(s, chunkSize);
      && s.pointer < s'.pointer <= LastId(s.log)
      && (LastIdOf(s.log, k) <= s.pointer ==> Lookup(s'.index, k) == Lookup(s.index, k))
      && (s.pointer < LastIdOf(s.log, k) <= s'.pointer ==> Lookup(s'.index, k) == Lookup(s.table, k))
  {
    ChunkEnd(s, chunkSize);
    if LastIdOf(s.log, k) <= s.pointer {
      ChunkLeavesAlone(s, chunkSize, k);
    } else if LastIdOf(s.log, k) <= Indexed(s, chunkSize).pointer {
      ChunkStores(s, chunkSize, k);
    }
  }

  lemma ChunkEnd(s: Shard, chunkSize: nat)
    requires LogOK(s.log) && Window(s.log, s.pointer, chunkSize, CONTACTS) != []
    ensures s.pointer < Indexed(s, chunkSize).pointer <= LastId(s.log)
  {
    var chunk := Window(s.log, s.pointer, chunkSize, CONTACTS);
    var last := chunk[|chunk| - 1];
    assert last in chunk;
    WindowMembers(s.log, s.pointer, chunkSize, CONTACTS, last);
    LastEntryIsLast(s.log, last.key);
  }

  lemma ChunkLeavesAlone(s: Shard, chunkSize: nat, k: Key)
    requires LogOK(s.log) && Window(s.log, s.pointer, chunkSize, CONTACTS) != [] && LastIdOf(s.log, k) <= s.pointer
    ensures Lookup(Indexed(s, chunkSize).index, k) == Lookup(s.index, k)
  {
    var chunk := Window(s.log, s.pointer, chunkSize, CONTACTS);
    UploadAt(s.index, chunk, s.table, k);
    LastEntryIsLast(s.log, k);
    forall e | e in chunk ensures e.key != k { WindowMembers(s.log, s.pointer, chunkSize, CONTACTS, e); }
  }

  lemma ChunkStores(s: Shard, chunkSize: nat, k: Key)
    requires LogOK(s.log) && Logged(s.log, s.table) && IsContact(k) && Window(s.log, s.pointer, chunkSize, CONTACTS) != []
    requires s.pointer < LastIdOf(s.log, k) <= Indexed(s, chunkSize).pointer
    ensures Lookup(Indexed(s, chunkSize).index, k) == Lookup(s.table, k)
  {
    var chunk := Window(s.log, s.pointer, chunkSize, CONTACTS);
    UploadAt(s.index, chunk, s.table, k);
    LastEntryIsLast(s.log, k);
    var e := LastEntry(s.log, k).value;
    WindowMembers(s.log, s.pointer, chunkSize, CONTACTS, e);
    assert k in s.table <==> e.command != Delete;
  }

  lemma CommitKeepsInv(s: Shard, step: Step)
    requires Inv(s) && Enabled(s, step) && (step.Write? || step.Remove?)
    ensures Inv(Do(s, step))
  {
    var s' := Do(s, step);
    var e := s'.log[|s.log|];
    assert s'.log == s.log + [e];
    CommitIsLogged(s.log, s.table, s'.table, e);
  }

  lemma RoundKeepsInv(s: Shard, step: Step)
    requires Inv(s) && !step.Write? && !step.Remove?
    ensures Inv(Do(s, step))
  {
    if !step.Restart? && Window(s.log, s.pointer, step.chunkSize, CONTACTS) != [] {
      ChunkSettles(s, step.chunkSize, Key("contact", 0));
      var s' := Do(s, step);
      forall k | IsContact(k) && s'.start < LastIdOf(s'.log, k) <= s'.pointer
        ensures Lookup(s'.index, k) == Lookup(s'.table, k)
      {
        ChunkSettles(s, step.chunkSize, k);
      }
    }
  }

  lemma {:induction false} InvRun(states: seq<Shard>, steps: seq<Step>, i: nat)
    requires IsRun(states, steps) && i <= |steps|
    ensures Inv(states[i])
  {
    if i > 0 {
      InvRun(states, steps, i - 1);
      if steps[i - 1].Write? || steps[i - 1].Remove? { CommitKeepsInv(states[i - 1], steps[i - 1]); }
      else { RoundKeepsInv(states[i - 1], steps[i - 1]); }
    }
  }

  // In every run of contact changes, rounds, crashes and restarts: the index equals the contact
  // table on every contact whose last transaction lies after the start and at or before the
  // persisted pointer.
  lemma IndexFollowsTable(states: seq<Shard>, steps: seq<Step>, i: nat, k: Key)
    requires IsRun(states, steps) && i <= |steps| && IsContact(k) && states[i].persisted.Some?
    requires states[i].start < LastIdOf(states[i].log, k) <= states[i].persisted.value
    ensures Lookup(states[i].index, k) == Lookup(states[i].table, k)
  {
    InvRun(states, steps, i);
  }

  // ----- the service -----

  class ContactSearchIndexService {
    const chunkSize: nat
    var shards: map<nat, Shard>

    constructor (shards: map<nat, Shard>, chunkSize: nat)
      ensures this.shards == shards && this.chunkSize == chunkSize
    {
      this.shards, this.chunkSize := shards, chunkSize;
    }

    method SetTransactionPointers()
      modifies this
      ensures shards == map key | key in old(shards) :: Restarted(old(shards)[key])
    {
      var todo := shards.Keys;
      while todo != {}
        invariant todo <= shards.Keys == old(shards).Keys
        invariant forall key :: key in shards ==> shards[key] == if key in todo then old(shards)[key] else Restarted(old(shards)[key])
        decreases |todo|
      {
        var key :| key in todo;
        shards := shards[key := Restarted(shards[key])];
        todo := todo - {key};
      }
    }

    method IndexTransactions()
      modifies this
      ensures shards == map key | key in old(shards) :: Indexed(old(shards)[key], chunkSize)
    {
      var todo := shards.Keys;
      while todo != {}
        invariant todo <= shards.Keys == old(shards).Keys
        invariant forall key :: key in shards ==> shards[key] == if key in todo then old(shards)[key] else Indexed(old(shards)[key], chunkSize)
        decreases |todo|
      {
        var key :| key in todo;
        var s := shards[key];
        var transactions := Window(s.log, s.pointer, chunkSize, CONTACTS);
        if transactions != [] {
          var docs := BuildDocs(transactions, s.table, s.index);
          s := s.(index := ApplyDocs(s.index, docs));
          var newPointer := transactions[|transactions| - 1].id;
          s := s.(persisted := Some(newPointer), pointer := newPointer);
          shards := shards[key := s];
        }
        todo := todo - {key};
      }
    }
  }
}
