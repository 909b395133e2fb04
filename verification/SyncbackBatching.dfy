// The action log and the batching of its entries into tasks (inbox/transactions/actions.py).
module SyncbackBatching {
  import opened Common

  type AccountId = nat
  type RecordId = nat
  type ActionId = nat     // the position of the entry in the log: ids grow in scheduling order

  datatype Status = Pending | Successful | Failed

  datatype Action =
    | ChangeLabels(added: seq<string>, removed: seq<string>)
    | CreateEvent
    | OtherAction(name: string)

  datatype Entry = Entry(account: AccountId, action: Action, record: RecordId, status: Status, retries: nat)

  type Log = seq<Entry>

  predicate IsPending(log: Log, i: ActionId) { i < |log| && log[i].status == Pending }

  predicate IsPendingOf(log: Log, account: AccountId, i: ActionId) {
    IsPending(log, i) && log[i].account == account
  }

  predicate Ascending(ids: seq<ActionId>) {
    forall j, k :: 0 <= j < k < |ids| ==> ids[j] < ids[k]
  }

  predicate InLog(log: Log, ids: seq<ActionId>) {
    forall k :: 0 <= k < |ids| ==> ids[k] < |log|
  }

  lemma AscendingSnoc(ids: seq<ActionId>, i: ActionId)
    requires Ascending(ids) && forall j :: j in ids ==> j < i
    ensures Ascending(ids + [i])
  {
    forall j, k | 0 <= j < k < |ids + [i]| ensures (ids + [i])[j] < (ids + [i])[k] {
      assert (ids + [i])[j] in ids;
    }
  }

  // The pending entries of an account, in id order.
  function PendingOf(log: Log, account: AccountId): (ids: seq<ActionId>)
    ensures Ascending(ids)
    ensures forall i: ActionId :: i in ids <==> IsPendingOf(log, account, i)
  {
    if log == [] then [] else
    var last := |log| - 1;
    var ids := PendingOf(log[..last], account);
    assert forall i: ActionId :: i in ids <==> i < last && IsPendingOf(log, account, i);
    AscendingSnoc(ids, last);
    if IsPendingOf(log, account, last) then ids + [last] else ids
  }

  lemma TakeClosed(all: seq<ActionId>, n: nat)
    requires Ascending(all) && n <= |all|
    ensures forall i, e :: i in all[..n] && e in all && e < i ==> e in all[..n]
  {
    forall i, e | i in all[..n] && e in all && e < i ensures e in all[..n] {
      var k :| 0 <= k < n && all[k] == i;
      var j :| 0 <= j < |all| && all[j] == e;
      assert j < k && all[..n][j] == e;
    }
  }

  // The query of _process_log for one namespace: ordered by id, limited to the batch size.
  function NextPending(log: Log, account: AccountId, batchSize: nat): (ids: seq<ActionId>)
    ensures Ascending(ids) && |ids| <= batchSize && InLog(log, ids)
    ensures forall i: ActionId :: i in ids ==> IsPendingOf(log, account, i)
    // It is closed downwards: whatever is pending before one of its entries is in it too.
    ensures forall i: ActionId, e: ActionId :: i in ids && IsPendingOf(log, account, e) && e < i ==> e in ids
    // It is as long as the batch size allows: short of it, nothing pending is left out.
    ensures |ids| < batchSize ==> forall e: ActionId :: IsPendingOf(log, account, e) ==> e in ids
  {
    var all := PendingOf(log, account);
    assert forall k :: 0 <= k < |all| ==> all[k] in all;
    if |all| <= batchSize then all else TakeClosed(all, batchSize); all[..batchSize]
  }

  // ----- tasks -----

  datatype Task = Task(action: Action, ids: seq<ActionId>, records: seq<RecordId>)

  function Elements(labels: seq<string>): set<string> { set l | l in labels }

  // Both entries ask for the same change of labels.
  predicate SameChange(a: Action, b: Action) {
    && a.ChangeLabels? && b.ChangeLabels?
    && Elements(a.removed) == Elements(b.removed)
    && Elements(a.added) == Elements(b.added)
  }

  // try_merge_with; account and provider are the same throughout a batch.
  function TryMerge(t: Task, u: Task): Option<Task> {
    if SameChange(t.action, u.action) && t.ids != u.ids && t.records != u.records
    then Some(Task(t.action, t.ids + u.ids, t.records + u.records))
    else None
  }

  function Single(log: Log, i: ActionId): Task
    requires i < |log|
  {
    Task(log[i].action, [i], [log[i].record])
  }

  function Append(tasks: seq<Task>, t: Task): seq<Task> {
    if tasks == [] then [t] else
    match TryMerge(tasks[|tasks| - 1], t)
    case Some(merged) => tasks[..|tasks| - 1] + [merged]
    case None => tasks + [t]
  }

  // The tasks that the batching loop makes of a sequence of entries.
  function TasksFor(log: Log, ids: seq<ActionId>): seq<Task>
    requires InLog(log, ids)
  {
    if ids == [] then [] else
    Append(TasksFor(log, ids[..|ids| - 1]), Single(log, ids[|ids| - 1]))
  }

  // action_log_ids of a batch
  function IdsOf(tasks: seq<Task>): seq<ActionId> {
    if tasks == [] then [] else IdsOf(tasks[..|tasks| - 1]) + tasks[|tasks| - 1].ids
  }

  // records[k] is the record of entry ids[k].
  predicate Aligned(log: Log, ids: seq<ActionId>, records: seq<RecordId>) {
    && |ids| == |records|
    && forall k :: 0 <= k < |ids| ==> ids[k] < |log| && log[ids[k]].record == records[k]
  }

  // Every task lists for each entry the record of that entry, and has the action of all of them;
  // only label changes are ever merged.
  predicate TaskMatches(log: Log, t: Task) {
    && Aligned(log, t.ids, t.records) && t.ids != []
    && (forall k :: 0 <= k < |t.ids| ==> t.action == log[t.ids[k]].action || SameChange(t.action, log[t.ids[k]].action))
    && (!t.action.ChangeLabels? ==> |t.ids| == 1)
  }

  lemma {:induction false} TasksForIsExact(log: Log, ids: seq<ActionId>)
    requires InLog(log, ids)
    ensures IdsOf(TasksFor(log, ids)) == ids
    ensures forall k :: 0 <= k < |TasksFor(log, ids)| ==> TaskMatches(log, TasksFor(log, ids)[k])
  {
    if ids != [] {
      var rest := ids[..|ids| - 1];
      var i := ids[|ids| - 1];
      assert i in ids && ids == rest + [i];
      TasksForIsExact(log, rest);
      AppendIsExact(log, TasksFor(log, rest), i);
    }
  }

  // Neighbouring tasks are merged wherever they may be: two of the same change stay apart only if
  // the second one starts with the only record of the first.
  lemma {:induction false} MergedWherePossible(log: Log, ids: seq<ActionId>, k: nat)
    requires InLog(log, ids) && Ascending(ids) && k + 1 < |TasksFor(log, ids)|
    requires SameChange(TasksFor(log, ids)[k].action, TasksFor(log, ids)[k + 1].action)
    ensures TasksFor(log, ids)[k + 1].records != [] && TasksFor(log, ids)[k].records == TasksFor(log, ids)[k + 1].records[..1]
  {
    var n := |ids| - 1;
    var rest, t := TasksFor(log, ids[..n]), Single(log, ids[n]);
    TasksForIsExact(log, ids[..n]);
    if k + 1 < |rest| {
      assert TaskMatches(log, rest[k + 1]);
      MergedWherePossible(log, ids[..n], k);
      assert TasksFor(log, ids)[k] == rest[k];
      assert rest[k + 1].records[..1] == TasksFor(log, ids)[k + 1].records[..1];
    } else {
      var last := rest[|rest| - 1];
      assert TasksFor(log, ids) == rest + [t] && k == |rest| - 1;
      LastIdsAreEarlier(rest, ids[..n], ids[n]);
      assert t.records[..1] == t.records;
    }
  }

  lemma LastIdsAreEarlier(tasks: seq<Task>, ids: seq<ActionId>, i: ActionId)
    requires tasks != [] && IdsOf(tasks) == ids && i !in ids
    ensures tasks[|tasks| - 1].ids != [i]
  {
    assert forall j :: j in tasks[|tasks| - 1].ids ==> j in IdsOf(tasks);
    assert i in [i];
  }

  lemma AppendIsExact(log: Log, tasks: seq<Task>, i: ActionId)
    requires i < |log|
    requires forall k :: 0 <= k < |tasks| ==> TaskMatches(log, tasks[k])
    ensures var tasks' := Append(tasks, Single(log, i));
      && IdsOf(tasks') == IdsOf(tasks) + [i]
      && forall k :: 0 <= k < |tasks'| ==> TaskMatches(log, tasks'[k])
  {
    var t := Single(log, i);
    var tasks' := Append(tasks, t);
    if tasks == [] {
      assert tasks'[..0] == [];
    } else {
      var last := tasks[|tasks| - 1];
      match TryMerge(last, t)
      case Some(merged) =>
        assert tasks'[..|tasks'| - 1] == tasks[..|tasks| - 1];
        assert IdsOf(tasks') == IdsOf(tasks[..|tasks| - 1]) + (last.ids + [i]);
        assert TaskMatches(log, merged);
      case None =>
        assert tasks'[..|tasks'| - 1] == tasks;
        assert IdsOf(tasks') == IdsOf(tasks) + [i];
    }
  }

  // ----- what the tasks do at the mail server -----

  type Remote = map<RecordId, set<string>>

  // change_labels on a list of messages: one command adds the labels to all of them, a second
  // one removes the other labels from all of them.
  function ChangeAll(remote: Remote, records: set<RecordId>, added: set<string>, removed: set<string>): Remote {
    map r | r in remote :: if r in records then remote[r] + added - removed else remote[r]
  }

  // A state of the server as a task sees it; actions other than label changes act on it through
  // an arbitrary function of their own.
  function Execute(remote: Remote, t: Task, other: (Remote, Action, RecordId) -> Remote): Remote {
    if t.action.ChangeLabels? then
      ChangeAll(remote, (set r | r in t.records), Elements(t.action.added), Elements(t.action.removed))
    else if t.records == [] then remote
    else other(remote, t.action, t.records[0])
  }

  function ExecuteAll(remote: Remote, tasks: seq<Task>, other: (Remote, Action, RecordId) -> Remote): Remote {
    if tasks == [] then remote
    else Execute(ExecuteAll(remote, tasks[..|tasks| - 1], other), tasks[|tasks| - 1], other)
  }

  // The entries one by one, unmerged.
  function ExecuteEntries(remote: Remote, log: Log, ids: seq<ActionId>, other: (Remote, Action, RecordId) -> Remote): Remote
    requires InLog(log, ids)
  {
    if ids == [] then remote
    else Execute(ExecuteEntries(remote, log, ids[..|ids| - 1], other), Single(log, ids[|ids| - 1]), other)
  }

  lemma ChangeAllTwice(remote: Remote, rs: set<RecordId>, qs: set<RecordId>, added: set<string>, removed: set<string>)
    ensures ChangeAll(ChangeAll(remote, rs, added, removed), qs, added, removed)
         == ChangeAll(remote, rs + qs, added, removed)
  {
    var left := ChangeAll(ChangeAll(remote, rs, added, removed), qs, added, removed);
    var right := ChangeAll(remote, rs + qs, added, removed);
    forall r | r in remote ensures left[r] == right[r] {
      var l := remote[r];
      assert (l + added - removed) + added - removed == l + added - removed;
    }
  }

  lemma MergeKeepsEffect(remote: Remote, t: Task, u: Task, other: (Remote, Action, RecordId) -> Remote)
    requires TryMerge(t, u).Some?
    ensures Execute(Execute(remote, t, other), u, other) == Execute(remote, TryMerge(t, u).value, other)
  {
    var rs, qs := (set r | r in t.records), (set r | r in u.records);
    ChangeAllTwice(remote, rs, qs, Elements(t.action.added), Elements(t.action.removed));
    assert (set r | r in t.records + u.records) == rs + qs;
  }

  // Running the merged tasks of a batch leaves the mail server as running its entries one by one.
  lemma {:induction false} BatchingKeepsEffect(remote: Remote, log: Log, ids: seq<ActionId>, other: (Remote, Action, RecordId) -> Remote)
    requires InLog(log, ids)
    ensures ExecuteAll(remote, TasksFor(log, ids), other) == ExecuteEntries(remote, log, ids, other)
  {
    if ids != [] {
      var rest := ids[..|ids| - 1];
      BatchingKeepsEffect(remote, log, rest, other);
      var tasks, t := TasksFor(log, rest), Single(log, ids[|ids| - 1]);
      var tasks' := Append(tasks, t);
      assert tasks' == TasksFor(log, ids);
      if tasks == [] {
        assert tasks'[..0] == [];
      } else {
        var last := tasks[|tasks| - 1];
        match TryMerge(last, t)
        case Some(merged) =>
          assert tasks'[..|tasks'| - 1] == tasks[..|tasks| - 1];
          MergeKeepsEffect(ExecuteAll(remote, tasks[..|tasks| - 1], other), last, t, other);
        case None =>
          assert tasks'[..|tasks'| - 1] == tasks;
      }
    }
  }

  // Dropping the entries of a task that are no longer pending
  // (_get_records_and_actions_to_process).
  function StillPending(log: Log, ids: seq<ActionId>, records: seq<RecordId>): (seq<ActionId>, seq<RecordId>)
    requires |ids| == |records|
  {
    if ids == [] then ([], []) else
    var n := |ids| - 1;
    var r := StillPending(log, ids[..n], records[..n]);
    if IsPending(log, ids[n]) then (r.0 + [ids[n]], r.1 + [records[n]]) else r
  }

  // It keeps exactly the pending ids, in order, each with its own record.
  lemma {:induction false} StillPendingIsExact(log: Log, ids: seq<ActionId>, records: seq<RecordId>)
    requires |ids| == |records|
    ensures var r := StillPending(log, ids, records);
      && (forall i: ActionId :: i in r.0 <==> i in ids && IsPending(log, i))
      && (Ascending(ids) ==> Ascending(r.0))
      && (Aligned(log, ids, records) ==> Aligned(log, r.0, r.1))
  {
    if ids != [] {
      var n := |ids| - 1;
      var r := StillPending(log, ids[..n], records[..n]);
      StillPendingIsExact(log, ids[..n], records[..n]);
      assert ids == ids[..n] + [ids[n]];
      if Ascending(ids) { StillAscending(ids, r.0); }
      if Aligned(log, ids, records) { assert Aligned(log, ids[..n], records[..n]); }
    }
  }

  lemma StillAscending(ids: seq<ActionId>, kept: seq<ActionId>)
    requires ids != [] && Ascending(ids)
    requires Ascending(ids[..|ids| - 1]) ==> Ascending(kept)
    requires forall i :: i in kept ==> i in ids[..|ids| - 1]
    ensures Ascending(kept) && Ascending(kept + [ids[|ids| - 1]])
  {
    forall j | j in kept ensures j < ids[|ids| - 1] { assert j in ids[..|ids| - 1]; }
    AscendingSnoc(kept, ids[|ids| - 1]);
  }
}
