// Actions of an account reach the mail server in the order in which they were scheduled.
module SyncbackOrder {
  import opened SyncbackBatching
  import opened SyncbackMachine

  // ----- the log -----

  // Among the pending entries of an account the retry counters never grow with the id, so in a
  // merged task the first entry is always the first to reach the limit.
  ghost predicate LogOK(log: Log) {
    && (forall i: ActionId :: IsPending(log, i) ==> log[i].retries < MAX_RETRIES)
    && (forall i: ActionId, j: ActionId :: IsPending(log, i) && IsPending(log, j) && i < j && log[i].account == log[j].account ==>
          log[i].retries >= log[j].retries)
  }

  // Entries keep what they are, and what is finished stays finished.
  ghost predicate Evolves(log: Log, log': Log) {
    && |log| <= |log'|
    && (forall i: ActionId :: i < |log| ==>
          log'[i] == log[i].(status := log'[i].status, retries := log'[i].retries))
    && (forall i: ActionId :: i < |log| && IsPending(log', i) ==> IsPending(log, i))
  }

  // ----- one batch in flight -----

  function Ids(f: Flight): seq<ActionId> { IdsOf(f.tasks) }

  predicate Has(f: Flight, i: ActionId) { i in Ids(f) }

  function Current(f: Flight): Task
    requires f.pos < |f.tasks|
  {
    f.tasks[f.pos]
  }

  // Whatever is pending for the account before an entry of the batch is in the batch.
  ghost predicate Closed(log: Log, f: Flight) {
    forall i: ActionId, e: ActionId :: Has(f, i) && e < i && IsPendingOf(log, f.account, e) ==> Has(f, e)
  }

  ghost predicate Shape(log: Log, f: Flight) {
    && Ascending(Ids(f))
    && (forall k :: 0 <= k < |f.tasks| ==> TaskMatches(log, f.tasks[k]))
    && (forall i: ActionId :: Has(f, i) ==> i < |log| && log[i].account == f.account)
    && f.pos <= |f.tasks|
  }

  ghost predicate TasksOver(log: Log, f: Flight) {
    forall k, i: ActionId :: 0 <= k < f.pos && k < |f.tasks| && i in f.tasks[k].ids ==> !IsPending(log, i)
  }

  // `rest` is what is still pending of the current task.
  ghost predicate PendingRest(log: Log, f: Flight, rest: seq<ActionId>)
    requires f.pos < |f.tasks|
  {
    && (forall i: ActionId :: i in rest ==> i in Current(f).ids && IsPending(log, i))
    && (forall i: ActionId :: i in Current(f).ids && IsPending(log, i) ==> i in rest)
  }

  ghost predicate PhaseOK(log: Log, f: Flight) {
    match f.phase
    case Queued => f.pos == 0
    case WaitingForSemaphore => f.pos == 0
    case Ready => true
    case Attempt(ids, n) =>
      && f.pos < |f.tasks| && ids != [] && Ascending(ids) && InLog(log, ids) && PendingRest(log, f, ids)
      && n < MAX_RETRIES && log[ids[0]].retries >= n
    case Marking(ids, k) =>
      f.pos < |f.tasks| && k < |ids| && Ascending(ids) && InLog(log, ids) && PendingRest(log, f, ids[k..])
    case Failing(ids, n, k, marked) =>
      && f.pos < |f.tasks| && k < |ids| && Ascending(ids) && InLog(log, ids) && n < MAX_RETRIES
      && (marked ==> k > 0 && PendingRest(log, f, ids[k..]))
      && (!marked ==> PendingRest(log, f, ids) && log[ids[0]].retries >= (if k == 0 then n else n + 1))
      && (!marked ==> forall j, l :: 0 <= j < k <= l < |ids| ==> log[ids[j]].retries > log[ids[l]].retries)
  }

  ghost predicate FlightOK(log: Log, f: Flight) {
    Shape(log, f) && Closed(log, f) && TasksOver(log, f) && PhaseOK(log, f)
  }

  // running_action_ids is the disjoint union of the batches in flight.
  ghost predicate RunningOK(s: State) {
    && (forall i: ActionId :: i in s.running <==> exists t :: t in s.flights && Has(s.flights[t], i))
    && (forall t, u, i: ActionId :: t in s.flights && u in s.flights && t != u && Has(s.flights[t], i) ==> !Has(s.flights[u], i))
    && (forall t :: t in s.flights ==> t < s.nextTicket)
  }

  ghost predicate Inv(s: State) {
    && LogOK(s.log)
    && RunningOK(s)
    && forall t :: t in s.flights ==> FlightOK(s.log, s.flights[t])
  }

  // ----- tasks of a batch -----

  lemma {:induction false} MemberOfTask(tasks: seq<Task>, i: ActionId)
    ensures i in IdsOf(tasks) <==> exists k :: 0 <= k < |tasks| && i in tasks[k].ids
  {
    if tasks != [] {
      var n := |tasks| - 1;
      MemberOfTask(tasks[..n], i);
      if k :| 0 <= k < |tasks| && i in tasks[k].ids {
        if k < n { assert i in tasks[..n][k].ids; }
      }
    }
  }

  lemma {:induction false} TasksAscend(tasks: seq<Task>, j: nat, k: nat, a: ActionId, b: ActionId)
    requires Ascending(IdsOf(tasks)) && j < k < |tasks| && a in tasks[j].ids && b in tasks[k].ids
    ensures a < b
  {
    var n := |tasks| - 1;
    var left := IdsOf(tasks[..n]);
    assert IdsOf(tasks) == left + tasks[n].ids;
    if k < n {
      assert forall x :: 0 <= x < |left| ==> left[x] == IdsOf(tasks)[x];
      assert tasks[..n][j] == tasks[j] && tasks[..n][k] == tasks[k];
      TasksAscend(tasks[..n], j, k, a, b);
    } else {
      assert tasks[..n][j] == tasks[j];
      MemberOfTask(tasks[..n], a);
      var x :| 0 <= x < |left| && left[x] == a;
      var y :| 0 <= y < |tasks[n].ids| && tasks[n].ids[y] == b;
      assert IdsOf(tasks)[x] == a && IdsOf(tasks)[|left| + y] == b;
    }
  }

  lemma {:induction false} TaskAscends(tasks: seq<Task>, k: nat)
    requires Ascending(IdsOf(tasks)) && k < |tasks|
    ensures Ascending(tasks[k].ids)
  {
    var n := |tasks| - 1;
    var left := IdsOf(tasks[..n]);
    assert IdsOf(tasks) == left + tasks[n].ids;
    if k < n {
      assert forall x :: 0 <= x < |left| ==> left[x] == IdsOf(tasks)[x];
      TaskAscends(tasks[..n], k);
    } else {
      assert forall x :: 0 <= x < |tasks[n].ids| ==> tasks[n].ids[x] == IdsOf(tasks)[|left| + x];
    }
  }

  // What is pending before an entry of the current task belongs to the current task too.
  lemma EarlierPendingIsCurrent(log: Log, f: Flight, i: ActionId, e: ActionId)
    requires Shape(log, f) && Closed(log, f) && TasksOver(log, f) && f.pos < |f.tasks|
    requires i in Current(f).ids && e < i && IsPendingOf(log, f.account, e)
    ensures e in Current(f).ids
  {
    MemberOfTask(f.tasks, i);
    assert Has(f, i);
    assert Has(f, e);
    MemberOfTask(f.tasks, e);
    var k :| 0 <= k < |f.tasks| && e in f.tasks[k].ids;
    if k > f.pos { TasksAscend(f.tasks, f.pos, k, i, e); }
  }

  // The order of sending: when entries go to the server, every earlier entry of the account has
  // succeeded or failed, except those that go in the same call.
  lemma SendInOrder(s: State, t: Ticket, i: ActionId, e: ActionId)
    requires Inv(s) && t in s.flights && s.flights[t].phase.Attempt?
    requires i in s.flights[t].phase.ids
    ensures IsPendingOf(s.log, s.flights[t].account, i)
    ensures e < i && IsPendingOf(s.log, s.flights[t].account, e) ==> e in s.flights[t].phase.ids
  {
    var f := s.flights[t];
    assert FlightOK(s.log, f);
    MemberOfTask(f.tasks, i);
    assert Has(f, i);
    if e < i && IsPendingOf(s.log, f.account, e) { EarlierPendingIsCurrent(s.log, f, i, e); }
  }

  // ----- frames -----

  lemma EvolvesKeeps(log: Log, log': Log, f: Flight)
    requires Evolves(log, log') && Shape(log, f) && Closed(log, f) && TasksOver(log, f)
    ensures Shape(log', f) && Closed(log', f) && TasksOver(log', f)
  {
    forall k | 0 <= k < |f.tasks| ensures TaskMatches(log', f.tasks[k]) {
      assert TaskMatches(log, f.tasks[k]);
    }
    forall k, i: ActionId | 0 <= k < f.pos && k < |f.tasks| && i in f.tasks[k].ids ensures !IsPending(log', i) {
      MemberOfTask(f.tasks, i);
      assert Has(f, i);
    }
  }

  // Only the position and the phase of a batch ever change.
  lemma SamePlan(log: Log, f: Flight, f': Flight)
    requires Shape(log, f) && Closed(log, f) && f'.tasks == f.tasks && f'.account == f.account && f'.pos <= |f.tasks|
    ensures Shape(log, f') && Closed(log, f')
  {
    assert forall i: ActionId :: Has(f', i) == Has(f, i);
  }

  // The current task is over once nothing of it is pending.
  lemma TaskIsOver(log: Log, f: Flight)
    requires Shape(log, f) && Closed(log, f) && TasksOver(log, f) && f.pos < |f.tasks|
    requires forall i: ActionId :: i in Current(f).ids ==> !IsPending(log, i)
    ensures FlightOK(log, NextTask(f))
  {
    SamePlan(log, f, NextTask(f));
  }

  // A batch none of whose entries changed is as it was.
  lemma UntouchedFlight(log: Log, log': Log, f: Flight)
    requires Evolves(log, log') && FlightOK(log, f)
    requires forall i: ActionId :: Has(f, i) ==> log'[i] == log[i]
    ensures FlightOK(log', f)
  {
    EvolvesKeeps(log, log', f);
    if f.pos < |f.tasks| {
      forall i: ActionId | i in Current(f).ids ensures i < |log| && log'[i] == log[i] {
        MemberOfTask(f.tasks, i);
        assert Has(f, i);
      }
    }
  }

  // Two batches of one account never both have something pending.
  lemma OneActiveBatch(s: State, t: Ticket, u: Ticket, i: ActionId, j: ActionId)
    requires Inv(s) && t in s.flights && u in s.flights && s.flights[t].account == s.flights[u].account
    requires Has(s.flights[t], i) && IsPending(s.log, i) && Has(s.flights[u], j) && IsPending(s.log, j)
    ensures t == u
  {
    assert FlightOK(s.log, s.flights[t]) && FlightOK(s.log, s.flights[u]);
    assert i < j ==> Has(s.flights[u], i);
    assert j < i ==> Has(s.flights[t], j);
  }

  // A step of one batch: its own entries may change, those of other batches do not.
  lemma InvPut(s: State, t: Ticket, f': Flight, log': Log)
    requires Inv(s) && t in s.flights && f'.tasks == s.flights[t].tasks
    requires LogOK(log') && Evolves(s.log, log') && FlightOK(log', f')
    requires forall u, i: ActionId :: u in s.flights && u != t && Has(s.flights[u], i) ==> log'[i] == s.log[i]
    ensures Inv(PutFlight(s.(log := log'), t, f'))
  {
    var s' := PutFlight(s.(log := log'), t, f');
    forall u | u in s'.flights ensures FlightOK(s'.log, s'.flights[u]) {
      if u != t { UntouchedFlight(s.log, log', s.flights[u]); }
    }
    RunningPut(s, t, f', log');
  }

  lemma RunningPut(s: State, t: Ticket, f': Flight, log': Log)
    requires RunningOK(s) && t in s.flights && f'.tasks == s.flights[t].tasks
    ensures RunningOK(PutFlight(s.(log := log'), t, f'))
  {
    var s' := PutFlight(s.(log := log'), t, f');
    assert forall u, i: ActionId :: u in s.flights ==> Has(s'.flights[u], i) == Has(s.flights[u], i);
    forall i: ActionId ensures i in s'.running <==> exists u :: u in s'.flights && Has(s'.flights[u], i) {
      if i in s.running { var u :| u in s.flights && Has(s.flights[u], i); assert Has(s'.flights[u], i); }
      if u :| u in s'.flights && Has(s'.flights[u], i) { assert Has(s.flights[u], i); }
    }
  }

  lemma InvLand(s: State, t: Ticket)
    requires Inv(s) && t in s.flights
    ensures Inv(Land(s, t))
  {
    var s' := Land(s, t);
    forall i: ActionId ensures i in s'.running <==> exists u :: u in s'.flights && Has(s'.flights[u], i) {
      if i in s'.running {
        var u :| u in s.flights && Has(s.flights[u], i);
        assert u in s'.flights && Has(s'.flights[u], i);
      }
      if u :| u in s'.flights && Has(s'.flights[u], i) { assert Has(s.flights[u], i) && !Has(s.flights[t], i); }
    }
  }

  // ----- steps -----

  lemma InvLog(s: State, log': Log)
    requires Inv(s) && LogOK(log') && Evolves(s.log, log')
    requires forall i: ActionId :: i in s.running && i < |s.log| ==> log'[i] == s.log[i]
    ensures Inv(s.(log := log'))
  {
    forall u | u in s.flights ensures FlightOK(log', s.flights[u]) {
      forall i: ActionId | Has(s.flights[u], i) ensures log'[i] == s.log[i] { assert i in s.running; }
      UntouchedFlight(s.log, log', s.flights[u]);
    }
    assert RunningOK(s.(log := log'));
  }

  lemma {:induction false} BeforeRunningIsFree(ids: seq<ActionId>, running: set<ActionId>)
    ensures BeforeRunning(ids, running) <= ids
    ensures forall i :: i in BeforeRunning(ids, running) ==> i in ids && i !in running
    ensures var n := |BeforeRunning(ids, running)|; n < |ids| ==> ids[n] in running
  {
    if ids != [] && ids[0] !in running { BeforeRunningIsFree(ids[1..], running); }
  }

  // A batch whose entries are in no other batch joins the ones in flight.
  function Launch(s: State, f: Flight): State {
    s.(running := s.running + (set i | i in IdsOf(f.tasks)),
       queue := s.queue + [s.nextTicket],
       flights := s.flights[s.nextTicket := f],
       nextTicket := s.nextTicket + 1)
  }

  lemma RunningLaunch(s: State, f: Flight)
    requires RunningOK(s) && forall i: ActionId :: Has(f, i) ==> i !in s.running
    ensures RunningOK(Launch(s, f))
  {
    var s' := Launch(s, f);
    forall i: ActionId ensures i in s'.running <==> exists u :: u in s'.flights && Has(s'.flights[u], i) {
      if i in s.running { var u :| u in s.flights && Has(s.flights[u], i); assert u in s'.flights && Has(s'.flights[u], i); }
      if Has(f, i) { assert Has(s'.flights[s.nextTicket], i); }
      if u :| u in s'.flights && Has(s'.flights[u], i) { assert u != s.nextTicket ==> Has(s.flights[u], i); }
    }
    forall u, v, i: ActionId | u in s'.flights && v in s'.flights && u != v && Has(s'.flights[u], i)
      ensures !Has(s'.flights[v], i)
    {
      if u == s.nextTicket { assert i !in s.running; } else { assert Has(s.flights[u], i); assert i in s.running; }
    }
  }

  lemma NewFlightOK(log: Log, account: AccountId, ids: seq<ActionId>)
    requires Ascending(ids) && InLog(log, ids)
    requires forall i: ActionId :: i in ids ==> IsPendingOf(log, account, i)
    requires forall i: ActionId, e: ActionId :: i in ids && IsPendingOf(log, account, e) && e < i ==> e in ids
    ensures var f := Flight(account, TasksFor(log, ids), 0, Queued);
      FlightOK(log, f) && Ids(f) == ids
  {
    TasksForIsExact(log, ids);
  }

  lemma ExpireEvolves(log: Log, ids: seq<ActionId>, expired: set<ActionId>)
    requires LogOK(log)
    ensures LogOK(Expire(log, ids, expired)) && Evolves(log, Expire(log, ids, expired))
  {
    var log' := Expire(log, ids, expired);
    assert forall j: ActionId :: IsPending(log', j) ==> IsPending(log, j) && log'[j] == log[j];
  }

  lemma InvProcess(s: State, account: AccountId, batchSize: nat, usable: bool, expired: set<ActionId>)
    requires Inv(s)
    ensures Inv(DoProcess(s, account, batchSize, usable, expired))
  {
    var ids := NextPending(s.log, account, batchSize);
    var unstarted := BeforeRunning(ids, s.running);
    BeforeRunningIsFree(ids, s.running);
    if !usable {
      ExpireEvolves(s.log, unstarted, expired);
      InvLog(s, Expire(s.log, unstarted, expired));
    } else if unstarted == ids && ids != [] {
      NewFlightOK(s.log, account, ids);
      RunningLaunch(s, Flight(account, TasksFor(s.log, ids), 0, Queued));
    }
  }

  // A batch is launched exactly for a usable account that has something pending and whose next
  // entries are all unstarted; it holds all of them.
  lemma LaunchIff(s: State, account: AccountId, batchSize: nat, usable: bool, expired: set<ActionId>)
    requires Inv(s)
    ensures var s', ids := DoProcess(s, account, batchSize, usable, expired), NextPending(s.log, account, batchSize);
      && (s.nextTicket in s'.flights <==> usable && ids != [] && forall i :: i in ids ==> i !in s.running)
      && (s.nextTicket in s'.flights ==> Ids(s'.flights[s.nextTicket]) == ids && s'.queue == s.queue + [s.nextTicket])
  {
    var ids := NextPending(s.log, account, batchSize);
    BeforeRunningIsFree(ids, s.running);
    var n := |BeforeRunning(ids, s.running)|;
    if n < |ids| { assert ids[n] in ids; }
    TasksForIsExact(s.log, ids);
  }

  // So no account starves for want of a batch: if something is pending and none of it is running,
  // the first pending entry goes out with the next batch.
  lemma FirstPendingIsLaunched(s: State, account: AccountId, batchSize: nat, expired: set<ActionId>, first: ActionId)
    requires Inv(s) && batchSize > 0 && IsPendingOf(s.log, account, first)
    requires forall e: ActionId :: IsPendingOf(s.log, account, e) ==> first <= e && e !in s.running
    ensures var s' := DoProcess(s, account, batchSize, true, expired);
      s.nextTicket in s'.flights && Has(s'.flights[s.nextTicket], first)
  {
    LaunchIff(s, account, batchSize, true, expired);
    var ids := NextPending(s.log, account, batchSize);
    assert ids != [] ==> ids[0] in ids;
  }

  lemma InvSchedule(s: State, account: AccountId, action: Action, record: RecordId)
    requires Inv(s)
    ensures Inv(Do(s, Schedule(account, action, record)))
  {
    InvLog(s, s.log + [Entry(account, action, record, Pending, 0)]);
  }

  lemma InvQuiet(s: State, step: Step)
    requires Inv(s) && Enabled(s, step) && (step.TakeJob? || step.Acquire? || step.Send?)
    ensures Inv(Do(s, step))
  {
    var t := if step.TakeJob? then s.queue[0] else step.t;
    var f := s.flights[t];
    var f' := Do(s, step).flights[t];
    assert FlightOK(s.log, f);
    SamePlan(s.log, f, f');
    assert PhaseOK(s.log, f');
    InvPut(s, t, f', s.log);
    assert RunningOK(PutFlight(s, t, f').(queue := Do(s, step).queue));
  }

  lemma InvBegin(s: State, t: Ticket)
    requires Inv(s) && Enabled(s, BeginTask(t))
    ensures Inv(Do(s, BeginTask(t)))
  {
    var f := s.flights[t];
    assert FlightOK(s.log, f);
    BegunFlightOK(s.log, f);
    InvPut(s, t, Do(s, BeginTask(t)).flights[t], s.log);
  }

  lemma BegunFlightOK(log: Log, f: Flight)
    requires LogOK(log) && FlightOK(log, f) && f.phase.Ready? && f.pos < |f.tasks|
    ensures var ids := StillPending(log, Current(f).ids, Current(f).records).0;
      FlightOK(log, if ids == [] then NextTask(f) else f.(phase := Attempt(ids, 0)))
  {
    var task := Current(f);
    var ids := StillPending(log, task.ids, task.records).0;
    StillPendingIsExact(log, task.ids, task.records);
    TaskAscends(f.tasks, f.pos);
    assert forall k :: 0 <= k < |ids| ==> ids[k] in ids;
    if ids == [] { TaskIsOver(log, f); } else { SamePlan(log, f, f.(phase := Attempt(ids, 0))); }
  }

  // ----- committing the outcome of a call -----

  // A step of batch t that commits a new value of one of its own entries.
  lemma InvPutOne(s: State, t: Ticket, f': Flight, i: ActionId, entry: Entry)
    requires Inv(s) && t in s.flights && f'.tasks == s.flights[t].tasks && Has(s.flights[t], i) && i < |s.log|
    requires entry == s.log[i].(status := entry.status, retries := entry.retries)
    requires entry.status == Pending ==> s.log[i].status == Pending
    requires LogOK(s.log[i := entry]) && FlightOK(s.log[i := entry], f')
    ensures Inv(PutFlight(s.(log := s.log[i := entry]), t, f'))
  {
    InvPut(s, t, f', s.log[i := entry]);
  }

  lemma FinishKeepsLogOK(log: Log, i: ActionId, entry: Entry)
    requires LogOK(log) && i < |log| && entry.status != Pending
    ensures LogOK(log[i := entry])
  {
    var log' := log[i := entry];
    assert forall j: ActionId :: IsPending(log', j) ==> IsPending(log, j) && log'[j] == log[j];
  }

  // The entry that a batch is about to commit is one of its own.
  lemma NextIsOwn(log: Log, f: Flight, ids: seq<ActionId>, k: nat)
    requires Shape(log, f) && f.pos < |f.tasks| && k < |ids| && ids[k] in Current(f).ids
    ensures Has(f, ids[k])
  {
    MemberOfTask(f.tasks, ids[k]);
  }

  lemma InvMark(s: State, t: Ticket)
    requires Inv(s) && Enabled(s, MarkOne(t))
    ensures Inv(Do(s, MarkOne(t)))
  {
    var f := s.flights[t];
    var (ids, k) := (f.phase.ids, f.phase.k);
    assert FlightOK(s.log, f);
    assert ids[k] == ids[k..][0];
    NextIsOwn(s.log, f, ids, k);
    var entry := s.log[ids[k]].(status := Successful);
    MarkedFlightOK(s.log, f);
    FinishKeepsLogOK(s.log, ids[k], entry);
    InvPutOne(s, t, Do(s, MarkOne(t)).flights[t], ids[k], entry);
  }

  lemma MarkedFlightOK(log: Log, f: Flight)
    requires FlightOK(log, f) && f.phase.Marking? && f.phase.ids[f.phase.k] < |log|
    ensures var (ids, k) := (f.phase.ids, f.phase.k);
      FlightOK(log[ids[k] := log[ids[k]].(status := Successful)],
               if k + 1 < |ids| then f.(phase := Marking(ids, k + 1)) else NextTask(f))
  {
    var (ids, k) := (f.phase.ids, f.phase.k);
    var log' := log[ids[k] := log[ids[k]].(status := Successful)];
    assert Evolves(log, log');
    EvolvesKeeps(log, log', f);
    RestShrinks(log, log', f, ids, k);
    if k + 1 < |ids| { SamePlan(log', f, f.(phase := Marking(ids, k + 1))); } else { TaskIsOver(log', f); }
  }

  // One more entry of the call is no longer pending, the others are as they were.
  lemma RestShrinks(log: Log, log': Log, f: Flight, ids: seq<ActionId>, k: nat)
    requires f.pos < |f.tasks| && k < |ids| && Ascending(ids) && |log'| == |log| && PendingRest(log, f, ids[k..])
    requires forall i: ActionId :: i in Current(f).ids ==> IsPending(log', i) == (IsPending(log, i) && i != ids[k])
    ensures PendingRest(log', f, ids[k + 1..])
  {
    assert ids[k..] == [ids[k]] + ids[k + 1..];
  }

  // ----- a failed attempt of an entry below the limit -----

  lemma InvRetry(s: State, t: Ticket, f: Flight, ids: seq<ActionId>, n: nat, k: nat)
    requires Inv(s) && t in s.flights && s.flights[t] == f && f.phase == Failing(ids, n, k, false)
    requires k < |ids| && ids[k] < |s.log| && s.log[ids[k]].retries + 1 != MAX_RETRIES
    ensures Inv(PutFlight(s.(log := CountRetry(s.log, ids[k])), t, AfterFail(f, ids, n, k, false)))
  {
    assert FlightOK(s.log, f);
    assert ids[k] in ids;
    NextIsOwn(s.log, f, ids, k);
    RetryKeepsLogOK(s.log, f, ids, n, k);
    RetriedFlightOK(s.log, f, ids, n, k);
    InvPutOne(s, t, AfterFail(f, ids, n, k, false), ids[k], CountRetry(s.log, ids[k])[ids[k]]);
  }

  lemma RetryKeepsLogOK(log: Log, f: Flight, ids: seq<ActionId>, n: nat, k: nat)
    requires LogOK(log) && FlightOK(log, f) && f.phase == Failing(ids, n, k, false)
    requires log[ids[k]].retries + 1 != MAX_RETRIES
    ensures LogOK(CountRetry(log, ids[k]))
  {
    var i := ids[k];
    assert i in ids && IsPending(log, i);
    NextIsOwn(log, f, ids, k);
    forall e: ActionId | e < i && IsPendingOf(log, log[i].account, e) ensures log[e].retries > log[i].retries {
      EarlierPendingIsCurrent(log, f, i, e);
      var j :| 0 <= j < |ids| && ids[j] == e;
      assert j < k;
    }
    OneMoreRetry(log, i);
  }

  lemma OneMoreRetry(log: Log, i: ActionId)
    requires LogOK(log) && IsPending(log, i) && log[i].retries + 1 != MAX_RETRIES
    requires forall e: ActionId :: e < i && IsPendingOf(log, log[i].account, e) ==> log[e].retries > log[i].retries
    ensures LogOK(CountRetry(log, i))
  {
    var log' := CountRetry(log, i);
    assert forall j: ActionId :: IsPending(log', j) <==> IsPending(log, j);
    assert forall j: ActionId :: j < |log| && j != i ==> log'[j] == log[j];
    assert IsPendingOf(log, log[i].account, i);
  }

  lemma RetriedFlightOK(log: Log, f: Flight, ids: seq<ActionId>, n: nat, k: nat)
    requires LogOK(log) && FlightOK(log, f) && f.phase == Failing(ids, n, k, false)
    requires log[ids[k]].retries + 1 != MAX_RETRIES
    ensures FlightOK(CountRetry(log, ids[k]), AfterFail(f, ids, n, k, false))
  {
    var log' := CountRetry(log, ids[k]);
    assert Evolves(log, log');
    EvolvesKeeps(log, log', f);
    SamePlan(log', f, AfterFail(f, ids, n, k, false));
    RetryKeepsLogOK(log, f, ids, n, k);
    assert ids[0] in ids && IsPending(log', ids[0]);
    FirstStaysAhead(log, f, ids, n, k);
    assert PendingRest(log', f, ids);
    if k + 1 < |ids| { RetriesStayApart(log, f, ids, n, k); }
  }

  lemma FirstStaysAhead(log: Log, f: Flight, ids: seq<ActionId>, n: nat, k: nat)
    requires FlightOK(log, f) && f.phase == Failing(ids, n, k, false)
    ensures CountRetry(log, ids[k])[ids[0]].retries >= n + 1
  {}

  lemma RetriesStayApart(log: Log, f: Flight, ids: seq<ActionId>, n: nat, k: nat)
    requires LogOK(log) && FlightOK(log, f) && f.phase == Failing(ids, n, k, false)
    ensures var log' := CountRetry(log, ids[k]);
      forall j, l :: 0 <= j < k + 1 <= l < |ids| ==> log'[ids[j]].retries > log'[ids[l]].retries
  {
    forall l | k <= l < |ids| ensures log[ids[k]].retries >= log[ids[l]].retries {
      assert ids[k] in ids && ids[l] in ids;
      NextIsOwn(log, f, ids, k);
      NextIsOwn(log, f, ids, l);
    }
  }

  // ----- an entry that reaches the limit -----

  lemma MarkFailedEvolves(log: Log, i: ActionId)
    requires LogOK(log) && i < |log|
    ensures LogOK(MarkFailed(log, i)) && Evolves(log, MarkFailed(log, i)) && |MarkFailed(log, i)| == |log|
  {
    var log' := MarkFailed(log, i);
    assert forall j: ActionId :: IsPending(log', j) ==> IsPending(log, j) && log'[j] == log[j];
  }

  // Only the first entry of a call can be the first to reach the limit.
  lemma FirstReachesLimit(log: Log, f: Flight, ids: seq<ActionId>, n: nat, k: nat, marked: bool)
    requires LogOK(log) && FlightOK(log, f) && f.phase == Failing(ids, n, k, marked)
    requires log[ids[k]].retries + 1 == MAX_RETRIES
    ensures !marked ==> k == 0
    ensures PendingRest(log, f, ids[k..])
  {
    if !marked {
      assert ids[0] in ids;
      assert ids[0..] == ids;
    }
  }

  lemma GivenUpFlightOK(log: Log, f: Flight, ids: seq<ActionId>, n: nat, k: nat, marked: bool)
    requires LogOK(log) && FlightOK(log, f) && f.phase == Failing(ids, n, k, marked)
    requires log[ids[k]].retries + 1 == MAX_RETRIES
    ensures FlightOK(MarkFailed(log, ids[k]), AfterFail(f, ids, n, k, true))
  {
    var log' := MarkFailed(log, ids[k]);
    MarkFailedEvolves(log, ids[k]);
    EvolvesKeeps(log, log', f);
    FirstReachesLimit(log, f, ids, n, k, marked);
    assert ids[k..][0] == ids[k];
    if log[ids[k]].action == CreateEvent {
      SingleEntryTask(log, f, ids, k);
      TaskIsOver(log', f);
    } else {
      RestShrinks(log, log', f, ids, k);
      if k + 1 < |ids| { SamePlan(log', f, AfterFail(f, ids, n, k, true)); } else { TaskIsOver(log', f); }
    }
  }

  lemma TwoDistinct(ids: seq<ActionId>)
    requires Ascending(ids) && |ids| > 1
    ensures ids[0] in ids && ids[1] in ids && ids[0] != ids[1]
  {}

  // create_event is never merged, so its task is this one entry.
  lemma SingleEntryTask(log: Log, f: Flight, ids: seq<ActionId>, k: nat)
    requires Shape(log, f) && f.pos < |f.tasks| && k < |ids| && Ascending(ids) && PendingRest(log, f, ids[k..])
    requires ids[k] < |log| && !log[ids[k]].action.ChangeLabels?
    ensures Current(f).ids == [ids[k]] && k + 1 == |ids|
  {
    assert TaskMatches(log, Current(f));
    assert ids[k..][0] == ids[k];
    assert ids[k] in Current(f).ids;
    var x :| 0 <= x < |Current(f).ids| && Current(f).ids[x] == ids[k];
    assert Current(f).ids == [ids[k]];
    if |ids[k..]| > 1 { TwoDistinct(ids[k..]); }
  }

  lemma InvGiveUp(s: State, t: Ticket, f: Flight, ids: seq<ActionId>, n: nat, k: nat, marked: bool)
    requires Inv(s) && t in s.flights && s.flights[t] == f && f.phase == Failing(ids, n, k, marked)
    requires k < |ids| && ids[k] < |s.log| && s.log[ids[k]].retries + 1 == MAX_RETRIES
    ensures Inv(PutFlight(s.(log := MarkFailed(s.log, ids[k])), t, AfterFail(f, ids, n, k, true)))
  {
    var i := ids[k];
    var log' := MarkFailed(s.log, i);
    assert FlightOK(s.log, f);
    FirstReachesLimit(s.log, f, ids, n, k, marked);
    assert ids[k..][0] == i;
    NextIsOwn(s.log, f, ids, k);
    MarkFailedEvolves(s.log, i);
    GivenUpFlightOK(s.log, f, ids, n, k, marked);
    forall u, e: ActionId | u in s.flights && u != t && Has(s.flights[u], e) ensures log'[e] == s.log[e] {
      assert FlightOK(s.log, s.flights[u]);
      if IsPending(s.log, e) && s.log[e].account == s.log[i].account { OneActiveBatch(s, t, u, i, e); }
    }
    InvPut(s, t, AfterFail(f, ids, n, k, true), log');
  }

  lemma InvStep(s: State, step: Step)
    requires Inv(s) && Enabled(s, step)
    ensures Inv(Do(s, step))
  {
    match step
    case Schedule(account, action, record) => InvSchedule(s, account, action, record);
    case Process(account, batchSize, usable, expired) => InvProcess(s, account, batchSize, usable, expired);
    case TakeJob => InvQuiet(s, step);
    case Acquire(_) => InvQuiet(s, step);
    case BeginTask(t) => InvBegin(s, t);
    case Send(_, _) => InvQuiet(s, step);
    case MarkOne(t) => InvMark(s, t);
    case FailOne(t) => InvFail(s, t);
    case Finish(t) => InvLand(s, t);
    case CutOff(t) => InvLand(s, t);
    case Restart =>
  }

  lemma InvFail(s: State, t: Ticket)
    requires Inv(s) && Enabled(s, FailOne(t))
    ensures Inv(DoFail(s, t))
  {
    var f := s.flights[t];
    var (ids, n, k, marked) := (f.phase.ids, f.phase.n, f.phase.k, f.phase.marked);
    if s.log[ids[k]].retries + 1 == MAX_RETRIES { InvGiveUp(s, t, f, ids, n, k, marked); }
    else if marked { InvLand(s, t); }
    else { InvRetry(s, t, f, ids, n, k); }
  }

  lemma {:induction false} InvRun(states: seq<State>, steps: seq<Step>, i: nat)
    requires IsRun(states, steps) && i <= |steps|
    ensures Inv(states[i])
  {
    if i > 0 {
      InvRun(states, steps, i - 1);
      InvStep(states[i - 1], steps[i - 1]);
    }
  }

  // ----- the theorems -----

  // In every run, with cut-off batches and restarts: whenever a call of the server carries entry
  // i, i is still pending, and every earlier pending entry of the account is in the same call.
  lemma SentInOrder(states: seq<State>, steps: seq<Step>, m: nat, i: ActionId, e: ActionId)
    requires IsRun(states, steps) && m < |steps| && steps[m].Send?
    requires i in states[m].flights[steps[m].t].phase.ids
    ensures IsPending(states[m].log, i)
    ensures (e < i && states[m].log[e].account == states[m].log[i].account) ==>
      states[m].log[e].status != Pending || e in states[m].flights[steps[m].t].phase.ids
  {
    InvRun(states, steps, m);
    var s, t := states[m], steps[m].t;
    var f := s.flights[t];
    SendInOrder(s, t, i, e);
  }

  // running_action_ids never misses an id that notify_worker_finished removes.
  lemma FinishedIdsAreRunning(states: seq<State>, steps: seq<Step>, m: nat, t: Ticket, i: ActionId)
    requires IsRun(states, steps) && m <= |steps| && t in states[m].flights && i in IdsOf(states[m].flights[t].tasks)
    ensures i in states[m].running
    ensures forall u :: u in states[m].flights && u != t ==> i !in IdsOf(states[m].flights[u].tasks)
  {
    InvRun(states, steps, m);
    var s := states[m];
    assert Has(s.flights[t], i);
    forall u | u in s.flights && u != t ensures i !in IdsOf(s.flights[u].tasks) { assert !Has(s.flights[u], i); }
  }
}
