// What a client that follows the delta API ends up with.
module DeltaConvergence {
  import opened Common
  import opened DeltaSync

  // ----- rolling up keeps the meaning -----

  // The last entry about k that produces a delta.
  function LastShown(es: seq<Transaction>, table: Table, k: Key): (r: Option<Transaction>)
    ensures r.Some? ==> r.value in es && r.value.key == k && Shown(r.value, table)
  {
    if es == [] then None else
    var rest := LastShown(es[1..], table, k);
    if rest.Some? then rest
    else if es[0].key == k && Shown(es[0], table) then Some(es[0]) else None
  }

  // What the entry does to the client's view of its object.
  function Outcome(copy: Table, last: Option<Transaction>, table: Table, k: Key): Option<Value> {
    match last
    case None => Lookup(copy, k)
    case Some(e) => if e.command == Delete then None else Lookup(table, k)
  }

  lemma {:induction false} ApplyAt(copy: Table, es: seq<Transaction>, table: Table, k: Key)
    ensures Lookup(Apply(copy, Deltas(es, table)), k) == Outcome(copy, LastShown(es, table, k), table, k)
    decreases es
  {
    if es != [] {
      if Shown(es[0], table) {
        var d := DeltaFor(es[0], table);
        assert Deltas(es, table) == [d] + Deltas(es[1..], table);
        assert Deltas(es, table)[1..] == Deltas(es[1..], table);
        ApplyAt(ApplyDelta(copy, d), es[1..], table, k);
      } else {
        ApplyAt(copy, es[1..], table, k);
      }
    }
  }

  // Entries of one slot show or hide together, so the last one shown is never superseded.
  lemma {:induction false} SlotShown(es: seq<Transaction>, table: Table, e: Transaction)
    requires Superseded(e, es) && Shown(e, table)
    ensures LastShown(es, table, e.key).Some?
  {
    if !SameSlot(es[0], e) {
      var i :| 0 <= i < |es| && SameSlot(es[i], e);
      assert es[1..][i - 1] == es[i];
      SlotShown(es[1..], table, e);
    }
  }

  lemma {:induction false} RollupLastShown(w: seq<Transaction>, table: Table, k: Key)
    ensures LastShown(Rollup(w), table, k) == LastShown(w, table, k)
  {
    if w != [] {
      RollupLastShown(w[1..], table, k);
      if Superseded(w[0], w[1..]) {
        if w[0].key == k && Shown(w[0], table) { SlotShown(w[1..], table, w[0]); }
      } else {
        assert ([w[0]] + Rollup(w[1..]))[1..] == Rollup(w[1..]);
      }
    }
  }

  // For any client state, the rolled-up window does what all of its entries one by one would do.
  lemma RollupKeepsMeaning(copy: Table, w: seq<Transaction>, table: Table)
    ensures Apply(copy, Deltas(Rollup(w), table)) == Apply(copy, Deltas(w, table))
  {
    var a, b := Apply(copy, Deltas(Rollup(w), table)), Apply(copy, Deltas(w, table));
    forall k ensures Lookup(a, k) == Lookup(b, k) {
      ApplyAt(copy, Rollup(w), table, k);
      ApplyAt(copy, w, table, k);
      RollupLastShown(w, table, k);
    }
    SameLookup(a, b);
  }

  lemma SameLookup(a: Table, b: Table)
    requires forall k :: Lookup(a, k) == Lookup(b, k)
    ensures a == b
  {
    forall k ensures k in a <==> k in b { assert Lookup(a, k) == Lookup(b, k); }
    forall k | k in a ensures a[k] == b[k] { assert Lookup(a, k) == Lookup(b, k); }
  }

  // ----- windows and last entries -----

  lemma {:induction false} LastEntryIsLast(log: Log, k: Key)
    requires LogOK(log)
    ensures LastEntry(log, k).Some? ==> LastEntry(log, k).value in log && LastEntry(log, k).value.key == k
    ensures forall e :: e in log && e.key == k ==> LastEntry(log, k).Some? && e.id <= LastEntry(log, k).value.id
    ensures LastIdOf(log, k) <= LastId(log)
  {
    if log != [] {
      var n := |log| - 1;
      LastEntryIsLast(log[..n], k);
      assert log == log[..n] + [log[n]];
    }
  }

  predicate Ascending(es: seq<Transaction>) {
    forall i, j :: 0 <= i < j < |es| ==> es[i].id < es[j].id
  }

  lemma {:induction false} PendingAscends(log: Log, pointer: TransactionId, f: Filter)
    requires LogOK(log)
    ensures Ascending(Pending(log, pointer, f))
  {
    if log != [] {
      PendingAscends(log[1..], pointer, f);
      var rest := Pending(log[1..], pointer, f);
      forall i | 0 <= i < |rest| ensures log[0].id < rest[i].id {
        assert rest[i] in rest;
        PendingMembers(log[1..], pointer, f, rest[i]);
      }
    }
  }

  // The window is exactly the visible entries between the pointer and its last entry.
  lemma WindowMembers(log: Log, pointer: TransactionId, limit: nat, f: Filter, e: Transaction)
    requires LogOK(log) && Window(log, pointer, limit, f) != []
    ensures var w := Window(log, pointer, limit, f);
      && Ascending(w)
      && (e in w <==> e in log && pointer < e.id <= w[|w| - 1].id && Visible(f, e.key))
  {
    var all, w := Pending(log, pointer, f), Window(log, pointer, limit, f);
    PendingAscends(log, pointer, f);
    PendingMembers(log, pointer, f, e);
    if e in all {
      var i :| 0 <= i < |all| && all[i] == e;
      if i < |w| { assert w[i] == e; }
    }
  }

  // LastShown is the entry with the largest id among those of k that are shown.
  lemma {:induction false} LastShownIsLargest(es: seq<Transaction>, table: Table, k: Key, e: Transaction)
    requires Ascending(es) && e in es && e.key == k && Shown(e, table)
    ensures LastShown(es, table, k).Some? && LastShown(es, table, k).value.id >= e.id
  {
    var i :| 0 <= i < |es| && es[i] == e;
    var rest := LastShown(es[1..], table, k);
    if i > 0 {
      assert es[1..][i - 1] == e;
      LastShownIsLargest(es[1..], table, k, e);
    } else if rest.Some? {
      var j :| 0 <= j < |es[1..]| && es[1..][j] == rest.value;
      assert es[j + 1] == rest.value;
    }
  }

  lemma SameIdSameEntry(es: seq<Transaction>, a: Transaction, b: Transaction)
    requires Ascending(es) && a in es && b in es && a.id == b.id
    ensures a == b
  {}

  // It depends only on which entries of k are shown.
  lemma LastShownBySet(es: seq<Transaction>, es': seq<Transaction>, table: Table, k: Key)
    requires Ascending(es) && Ascending(es')
    requires forall x: Transaction :: x.key == k && Shown(x, table) ==> (x in es <==> x in es')
    ensures LastShown(es, table, k) == LastShown(es', table, k)
  {
    var a, b := LastShown(es, table, k), LastShown(es', table, k);
    if a.Some? { LastShownIsLargest(es', table, k, a.value); }
    if b.Some? { LastShownIsLargest(es, table, k, b.value); }
    if a.Some? && b.Some? { SameIdSameEntry(es, a.value, b.value); }
  }

  // ----- a whole poll -----

  // The visible entries after p, up to and with q.
  function Between(log: Log, p: TransactionId, q: TransactionId, f: Filter): seq<Transaction> {
    if log == [] then []
    else if p < log[0].id <= q && Visible(f, log[0].key) then [log[0]] + Between(log[1..], p, q, f)
    else Between(log[1..], p, q, f)
  }

  lemma {:induction false} BetweenMembers(log: Log, p: TransactionId, q: TransactionId, f: Filter)
    requires LogOK(log)
    ensures Ascending(Between(log, p, q, f))
    ensures forall e :: e in Between(log, p, q, f) <==> e in log && p < e.id <= q && Visible(f, e.key)
  {
    if log != [] {
      BetweenMembers(log[1..], p, q, f);
      assert log == [log[0]] + log[1..];
      var rest := Between(log[1..], p, q, f);
      forall i | 0 <= i < |rest| ensures log[0].id < rest[i].id { assert rest[i] in rest; assert rest[i] in log[1..]; }
    }
  }

  function Cursor(ds: seq<Delta>): TransactionId
    requires ds != []
  {
    ds[|ds| - 1].cursor
  }

  // The last delta comes from an entry that is shown ...
  lemma {:induction false} CursorEntry(es: seq<Transaction>, table: Table) returns (e: Transaction)
    requires Deltas(es, table) != []
    ensures e in es && Shown(e, table) && e.id == Cursor(Deltas(es, table))
  {
    var rest := Deltas(es[1..], table);
    if rest == [] {
      e := es[0];
    } else {
      e := CursorEntry(es[1..], table);
      assert e in es;
    }
  }

  // ... and no shown entry has a larger id.
  lemma {:induction false} CursorIsLargest(es: seq<Transaction>, table: Table, e: Transaction)
    requires Ascending(es) && e in es && Shown(e, table)
    ensures Deltas(es, table) != [] && e.id <= Cursor(Deltas(es, table))
  {
    var i :| 0 <= i < |es| && es[i] == e;
    if i > 0 {
      assert es[1..][i - 1] == e;
      CursorIsLargest(es[1..], table, e);
    } else if Deltas(es[1..], table) != [] {
      var last := CursorEntry(es[1..], table);
      var j :| 0 <= j < |es[1..]| && es[1..][j] == last;
      assert es[j + 1] == last;
    }
  }

  lemma {:induction false} RollupWithin(w: seq<Transaction>)
    requires Ascending(w)
    ensures Ascending(Rollup(w)) && forall e :: e in Rollup(w) ==> e in w
  {
    if w != [] {
      RollupWithin(w[1..]);
      var rest := Rollup(w[1..]);
      forall i | 0 <= i < |rest| ensures w[0].id < rest[i].id { assert rest[i] in rest; }
    }
  }

  // The rolled-up deltas end at the last entry of the window that is shown, or are empty.
  lemma RollupCursor(w: seq<Transaction>, table: Table, e: Transaction)
    requires Ascending(w) && e in w && Shown(e, table)
    ensures var ds := Deltas(Rollup(w), table);
      ds != [] && e.id <= Cursor(ds)
  {
    RollupWithin(w);
    RollupLastShown(w, table, e.key);
    LastShownIsLargest(w, table, e.key, e);
    CursorIsLargest(Rollup(w), table, LastShown(w, table, e.key).value);
  }

  // A poll does to any client state what applying one by one every visible entry that its new
  // pointer passes would do.
  lemma {:induction false} ScanMeaning(log: Log, table: Table, pointer: TransactionId, limit: nat, f: Filter, copy: Table, k: Key)
    requires LogOK(log)
    ensures var (ds, q) := Scan(log, table, pointer, limit, f);
      q >= pointer && Lookup(Apply(copy, ds), k) == Outcome(copy, LastShown(Between(log, pointer, q, f), table, k), table, k)
    decreases |Pending(log, pointer, f)|
  {
    var (ds, q) := Scan(log, table, pointer, limit, f);
    var w := Window(log, pointer, limit, f);
    BetweenMembers(log, pointer, q, f);
    if w == [] {
      assert LastShown(Between(log, pointer, q, f), table, k).None?;
    } else if Deltas(Rollup(w), table) != [] {
      FinalWindow(log, table, pointer, limit, f, copy, k);
    } else {
      PendingShrinks(log, pointer, limit, f);
      var last := w[|w| - 1].id;
      ScanMeaning(log, table, last, limit, f, copy, k);
      SkippedWindow(log, table, pointer, limit, f, q, k);
    }
  }

  lemma FinalWindow(log: Log, table: Table, pointer: TransactionId, limit: nat, f: Filter, copy: Table, k: Key)
    requires LogOK(log) && Window(log, pointer, limit, f) != []
    requires Deltas(Rollup(Window(log, pointer, limit, f)), table) != []
    ensures var ds := Deltas(Rollup(Window(log, pointer, limit, f)), table);
      var q := Cursor(ds);
      q >= pointer && Lookup(Apply(copy, ds), k) == Outcome(copy, LastShown(Between(log, pointer, q, f), table, k), table, k)
  {
    var w := Window(log, pointer, limit, f);
    var ds := Deltas(Rollup(w), table);
    var q := Cursor(ds);
    WindowMembers(log, pointer, limit, f, w[0]);
    RollupWithin(w);
    var top := CursorEntry(Rollup(w), table);
    WindowMembers(log, pointer, limit, f, top);
    ApplyAt(copy, Rollup(w), table, k);
    RollupLastShown(w, table, k);
    BetweenMembers(log, pointer, q, f);
    forall x: Transaction | x.key == k && Shown(x, table) ensures x in w <==> x in Between(log, pointer, q, f) {
      WindowMembers(log, pointer, limit, f, x);
      if x in w { RollupCursor(w, table, x); }
    }
    LastShownBySet(w, Between(log, pointer, q, f), table, k);
  }

  lemma SkippedWindow(log: Log, table: Table, pointer: TransactionId, limit: nat, f: Filter, q: TransactionId, k: Key)
    requires LogOK(log) && Window(log, pointer, limit, f) != []
    requires Deltas(Rollup(Window(log, pointer, limit, f)), table) == []
    requires q >= Window(log, pointer, limit, f)[|Window(log, pointer, limit, f)| - 1].id
    ensures var w := Window(log, pointer, limit, f);
      && pointer < w[|w| - 1].id
      && LastShown(Between(log, pointer, q, f), table, k) == LastShown(Between(log, w[|w| - 1].id, q, f), table, k)
  {
    var w := Window(log, pointer, limit, f);
    var last := w[|w| - 1];
    BetweenMembers(log, pointer, q, f);
    BetweenMembers(log, last.id, q, f);
    assert last in w;
    WindowMembers(log, pointer, limit, f, last);
    forall x: Transaction | x.key == k && Shown(x, table) ensures x in Between(log, pointer, q, f) <==> x in Between(log, last.id, q, f) {
      WindowMembers(log, pointer, limit, f, x);
      if x in w { RollupCursor(w, table, x); }
    }
    LastShownBySet(Between(log, pointer, q, f), Between(log, last.id, q, f), table, k);
  }

  // With a positive limit a poll without deltas has seen the end of the visible log.
  lemma {:induction false} EmptyScanReachesEnd(log: Log, table: Table, pointer: TransactionId, limit: nat, f: Filter)
    requires limit > 0 && Scan(log, table, pointer, limit, f).0 == []
    ensures Pending(log, Scan(log, table, pointer, limit, f).1, f) == []
    decreases |Pending(log, pointer, f)|
  {
    var w := Window(log, pointer, limit, f);
    if w != [] {
      PendingShrinks(log, pointer, limit, f);
      EmptyScanReachesEnd(log, table, w[|w| - 1].id, limit, f);
    }
  }

  // ----- what the deltas of a poll are -----

  // The delta tells of this entry: its object, its command by name, its id, and the current value
  // of the object unless it is deleted.
  predicate Tells(d: Delta, e: Transaction, table: Table) {
    && d.key == e.key && d.cursor == e.id
    && (d.event == Create <==> e.command == Insert) && (d.event == Modify <==> e.command == Update)
    && (d.event == Deletion <==> e.command == Delete)
    && d.attributes == (if e.command == Delete then None else Lookup(table, e.key)) && (d.attributes.None? <==> e.command == Delete)
  }

  lemma {:induction false} DeltasTell(es: seq<Transaction>, table: Table, i: nat)
    requires i < |Deltas(es, table)|
    ensures exists e :: e in es && Tells(Deltas(es, table)[i], e, table)
    ensures |Deltas(es, table)| <= |es|
  {
    var rest := Deltas(es[1..], table);
    DeltasFit(es, table);
    if Shown(es[0], table) {
      if i == 0 {
        assert es[0] in es && Tells(Deltas(es, table)[0], es[0], table);
      } else {
        DeltasTell(es[1..], table, i - 1);
        var e :| e in es[1..] && Tells(rest[i - 1], e, table);
        assert e in es;
      }
    } else {
      DeltasTell(es[1..], table, i);
      var e :| e in es[1..] && Tells(rest[i], e, table);
      assert e in es;
    }
  }

  lemma {:induction false} DeltasFit(es: seq<Transaction>, table: Table)
    ensures |Deltas(es, table)| <= |es|
  {
    if es != [] { DeltasFit(es[1..], table); }
  }

  lemma {:induction false} RollupFits(w: seq<Transaction>)
    ensures |Rollup(w)| <= |w|
  {
    if w != [] { RollupFits(w[1..]); }
  }

  // A window is the beginning of what is pending, as long as the limit allows.
  lemma WindowIsFull(log: Log, pointer: TransactionId, limit: nat, f: Filter)
    ensures Window(log, pointer, limit, f) <= Pending(log, pointer, f)
    ensures |Window(log, pointer, limit, f)| <= limit
    ensures |Window(log, pointer, limit, f)| < limit ==> Window(log, pointer, limit, f) == Pending(log, pointer, f)
  {}

  // A poll returns at most `limit` deltas, each telling of a visible entry after the pointer.
  lemma {:induction false} PollTells(log: Log, table: Table, pointer: TransactionId, limit: nat, f: Filter, i: nat)
    requires LogOK(log) && i < |Scan(log, table, pointer, limit, f).0|
    ensures |Scan(log, table, pointer, limit, f).0| <= limit
    ensures exists e :: e in log && e.id > pointer && Visible(f, e.key) && Tells(Scan(log, table, pointer, limit, f).0[i], e, table)
    decreases |Pending(log, pointer, f)|
  {
    var w := Window(log, pointer, limit, f);
    var ds := Deltas(Rollup(w), table);
    if ds != [] {
      DeltasTell(Rollup(w), table, i);
      RollupFits(w);
      var e :| e in Rollup(w) && Tells(ds[i], e, table);
      WindowMembers(log, pointer, limit, f, e);
      RollupWithin(w);
    } else {
      PendingShrinks(log, pointer, limit, f);
      var last := w[|w| - 1];
      WindowMembers(log, pointer, limit, f, last);
      PollTells(log, table, last.id, limit, f, i);
    }
  }

  // With limit 0, which the API accepts, a poll says nothing at all.
  lemma ZeroLimitSaysNothing(log: Log, table: Table, pointer: TransactionId, f: Filter)
    ensures Scan(log, table, pointer, 0, f) == ([], pointer)
  {}

  // ----- following the log -----

  // The client agrees with the table on every visible object whose last entry it has passed.
  ghost predicate Agrees(log: Log, table: Table, copy: Table, pointer: TransactionId, f: Filter) {
    forall k :: Visible(f, k) && LastIdOf(log, k) <= pointer ==> Lookup(copy, k) == Lookup(table, k)
  }

  lemma ScanAgrees(log: Log, table: Table, copy: Table, pointer: TransactionId, limit: nat, f: Filter)
    requires LogOK(log) && Logged(log, table) && Agrees(log, table, copy, pointer, f)
    ensures var (ds, q) := Scan(log, table, pointer, limit, f);
      q >= pointer && Agrees(log, table, Apply(copy, ds), q, f)
  {
    var (ds, q) := Scan(log, table, pointer, limit, f);
    BetweenMembers(log, pointer, q, f);
    ScanMeaning(log, table, pointer, limit, f, copy, Key("", 0));
    forall k | Visible(f, k) && LastIdOf(log, k) <= q ensures Lookup(Apply(copy, ds), k) == Lookup(table, k) {
      ScanMeaning(log, table, pointer, limit, f, copy, k);
      LastEntryIsLast(log, k);
      var es := Between(log, pointer, q, f);
      if LastIdOf(log, k) > pointer {
        var e := LastEntry(log, k).value;
        assert (k in table <==> e.command != Delete);
        LastShownIsLargest(es, table, k, e);
        SameIdSameEntry(es, LastShown(es, table, k).value, e);
      }
    }
  }

  // ----- runs -----

  datatype State = State(log: Log, table: Table, copy: Table, pointer: TransactionId)

  datatype Step =
    | Write(key: Key, value: Value, id: TransactionId, at: int)    // insert or update
    | Remove(key: Key, id: TransactionId, at: int)
    | PollStream(limit: nat)    // streaming_change_generator keeps the returned pointer
    | PollHttp(limit: nat)      // sync_deltas moves the cursor only with a delta

  predicate Enabled(s: State, step: Step) {
    match step
    case Write(_, _, id, at) => id > LastId(s.log) && (s.log == [] || at >= s.log[|s.log| - 1].createdAt)
    case Remove(k, id, at) => k in s.table && id > LastId(s.log) && (s.log == [] || at >= s.log[|s.log| - 1].createdAt)
    case PollStream(_) => true
    case PollHttp(_) => true
  }

  function Do(s: State, step: Step, f: Filter): State
    requires Enabled(s, step)
  {
    match step
    case Write(k, v, id, at) =>
      s.(table := s.table[k := v], log := s.log + [Transaction(id, k, if k in s.table then Update else Insert, at)])
    case Remove(k, id, at) =>
      s.(table := s.table - {k}, log := s.log + [Transaction(id, k, Delete, at)])
    case PollStream(limit) =>
      (match Poll(s.log, s.table, s.pointer, limit, f)
       case Err(_) => s
       case Ok((ds, q)) => s.(copy := Apply(s.copy, ds), pointer := q))
    case PollHttp(limit) =>
      (match Poll(s.log, s.table, s.pointer, limit, f)
       case Err(_) => s
       case Ok((ds, q)) => if ds == [] then s else s.(copy := Apply(s.copy, ds), pointer := q))
  }

  ghost predicate IsRun(states: seq<State>, steps: seq<Step>, f: Filter) {
    && |states| == |steps| + 1
    && states[0] == State([], map[], map[], 0)
    && forall i :: 0 <= i < |steps| ==> Enabled(states[i], steps[i]) && states[i + 1] == Do(states[i], steps[i], f)
  }

  ghost predicate Inv(s: State, f: Filter) {
    && LogOK(s.log) && Logged(s.log, s.table) && s.pointer <= LastId(s.log)
    && Agrees(s.log, s.table, s.copy, s.pointer, f)
  }

  lemma CommitKeepsInv(s: State, step: Step, f: Filter)
    requires Inv(s, f) && Enabled(s, step) && (step.Write? || step.Remove?)
    ensures Inv(Do(s, step, f), f)
  {
    var s' := Do(s, step, f);
    var e := s'.log[|s.log|];
    assert s'.log == s.log + [e];
    CommitIsLogged(s.log, s.table, s'.table, e);
  }

  lemma {:induction false} ScanStaysInLog(log: Log, table: Table, pointer: TransactionId, limit: nat, f: Filter)
    requires LogOK(log) && pointer <= LastId(log)
    ensures Scan(log, table, pointer, limit, f).1 <= LastId(log)
    decreases |Pending(log, pointer, f)|
  {
    var w := Window(log, pointer, limit, f);
    if w != [] {
      var ds := Deltas(Rollup(w), table);
      WindowMembers(log, pointer, limit, f, w[|w| - 1]);
      RollupWithin(w);
      if ds != [] {
        var e := CursorEntry(Rollup(w), table);
        WindowMembers(log, pointer, limit, f, e);
      } else {
        PendingShrinks(log, pointer, limit, f);
        assert w[|w| - 1] in w;
        ScanStaysInLog(log, table, w[|w| - 1].id, limit, f);
      }
    }
  }

  lemma PollKeepsInv(s: State, step: Step, f: Filter)
    requires Inv(s, f) && Enabled(s, step) && (step.PollStream? || step.PollHttp?)
    ensures Inv(Do(s, step, f), f)
  {
    ScanAgrees(s.log, s.table, s.copy, s.pointer, step.limit, f);
    ScanStaysInLog(s.log, s.table, s.pointer, step.limit, f);
  }

  lemma {:induction false} InvRun(states: seq<State>, steps: seq<Step>, f: Filter, i: nat)
    requires IsRun(states, steps, f) && i <= |steps|
    ensures Inv(states[i], f)
  {
    if i > 0 {
      InvRun(states, steps, f, i - 1);
      if steps[i - 1].Write? || steps[i - 1].Remove? { CommitKeepsInv(states[i - 1], steps[i - 1], f); }
      else { PollKeepsInv(states[i - 1], steps[i - 1], f); }
    }
  }

  // In every state of every run, every visible object whose last entry is at or before the
  // client's pointer has exactly its table value in the client's copy, or is absent from both.
  lemma DeltaConvergence(states: seq<State>, steps: seq<Step>, f: Filter, i: nat, k: Key)
    requires IsRun(states, steps, f) && i <= |steps|
    requires Visible(f, k) && LastIdOf(states[i].log, k) <= states[i].pointer
    ensures Lookup(states[i].copy, k) == Lookup(states[i].table, k)
  {
    InvRun(states, steps, f, i);
  }

  // When a poll with a positive limit returns no deltas, the client has the whole visible table.
  lemma EmptyPollMeansCaughtUp(states: seq<State>, steps: seq<Step>, f: Filter, i: nat, limit: nat, k: Key)
    requires IsRun(states, steps, f) && i <= |steps| && limit > 0 && states[i].log != []
    requires Poll(states[i].log, states[i].table, states[i].pointer, limit, f).value.0 == []
    requires Visible(f, k)
    ensures Lookup(states[i].copy, k) == Lookup(states[i].table, k)
  {
    InvRun(states, steps, f, i);
    var s := states[i];
    LastEntryIsLast(s.log, k);
    if LastId(s.log) != s.pointer {
      ScanAgrees(s.log, s.table, s.copy, s.pointer, limit, f);
      EmptyScanReachesEnd(s.log, s.table, s.pointer, limit, f);
      var q := Scan(s.log, s.table, s.pointer, limit, f).1;
      if LastEntry(s.log, k).Some? { PendingMembers(s.log, q, f, LastEntry(s.log, k).value); }
    }
  }
}
