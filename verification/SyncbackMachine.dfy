// The syncback service at work (inbox/transactions/actions.py): new actions, polls of the log,
// interleaved workers, batches that are cut off, and restarts of the whole service.
// One step is one commit to the log, one call of the mail server or one change of the
// service's own bookkeeping.
module SyncbackMachine {
  import opened SyncbackBatching

  const MAX_RETRIES := 20

  type Ticket = nat

  // Where a batch stands. Attempt: about to call the server for the n-th time (from 0).
  // Marking and Failing: k entries of the call have been committed as successful or as failed
  // attempts; `marked` tells that one of them has reached the limit.
  datatype Phase =
    | Queued
    | WaitingForSemaphore
    | Ready
    | Attempt(ids: seq<ActionId>, n: nat)
    | Marking(ids: seq<ActionId>, k: nat)
    | Failing(ids: seq<ActionId>, n: nat, k: nat, marked: bool)

  // A batch between _batch_log_entries and notify_worker_finished; tasks[..pos] are over.
  datatype Flight = Flight(account: AccountId, tasks: seq<Task>, pos: nat, phase: Phase)

  datatype State = State(
    log: Log,
    running: set<ActionId>,          // running_action_ids
    queue: seq<Ticket>,              // task_queue
    flights: map<Ticket, Flight>,
    nextTicket: Ticket)

  predicate HoldsSemaphore(f: Flight) { !f.phase.Queued? && !f.phase.WaitingForSemaphore? }

  // ----- effects on the log -----

  // The cascade of _mark_action_as_failed for create_event.
  function FailPendingOn(log: Log, account: AccountId, record: RecordId): Log {
    seq(|log|, j requires 0 <= j < |log| =>
      if log[j].status == Pending && log[j].account == account && log[j].record == record
      then log[j].(status := Failed) else log[j])
  }

  function MarkFailed(log: Log, i: ActionId): Log
    requires i < |log|
  {
    var log1 := log[i := log[i].(status := Failed, retries := log[i].retries + 1)];
    if log[i].action == CreateEvent then FailPendingOn(log1, log[i].account, log[i].record) else log1
  }

  function CountRetry(log: Log, i: ActionId): Log
    requires i < |log|
  {
    log[i := log[i].(retries := log[i].retries + 1)]
  }

  // Entries of an invalid or stopped account that are past the grace period.
  function Expire(log: Log, ids: seq<ActionId>, expired: set<ActionId>): Log {
    seq(|log|, j requires 0 <= j < |log| =>
      if j in ids && j in expired then log[j].(status := Failed) else log[j])
  }

  // The scanned entries before the first one that is already running.
  function BeforeRunning(ids: seq<ActionId>, running: set<ActionId>): seq<ActionId> {
    if ids == [] || ids[0] in running then [] else [ids[0]] + BeforeRunning(ids[1..], running)
  }

  // ----- steps -----

  datatype Step =
    | Schedule(account: AccountId, action: Action, record: RecordId)
    | Process(account: AccountId, batchSize: nat, usable: bool, expired: set<ActionId>)
    | TakeJob
    | Acquire(t: Ticket)
    | BeginTask(t: Ticket)
    | Send(t: Ticket, ok: bool)      // a timeout during the call counts as a failed attempt
    | MarkOne(t: Ticket)
    | FailOne(t: Ticket)
    | Finish(t: Ticket)
    | CutOff(t: Ticket)              // a timeout anywhere else ends the batch
    | Restart

  predicate Enabled(s: State, step: Step) {
    match step
    case Schedule(_, _, _) => true
    case Process(_, _, _, _) => true
    case TakeJob => s.queue != [] && s.queue[0] in s.flights && s.flights[s.queue[0]].phase.Queued?
    case Acquire(t) =>
      && t in s.flights && s.flights[t].phase.WaitingForSemaphore?
      && forall u :: u in s.flights && s.flights[u].account == s.flights[t].account ==> !HoldsSemaphore(s.flights[u])
    case BeginTask(t) =>
      && t in s.flights && s.flights[t].phase.Ready? && s.flights[t].pos < |s.flights[t].tasks|
      && |s.flights[t].tasks[s.flights[t].pos].ids| == |s.flights[t].tasks[s.flights[t].pos].records|
    case Send(t, _) => t in s.flights && s.flights[t].phase.Attempt?
    case MarkOne(t) =>
      && t in s.flights && s.flights[t].phase.Marking? && s.flights[t].phase.k < |s.flights[t].phase.ids|
      && s.flights[t].phase.ids[s.flights[t].phase.k] < |s.log|
    case FailOne(t) =>
      && t in s.flights && s.flights[t].phase.Failing? && s.flights[t].phase.k < |s.flights[t].phase.ids|
      && s.flights[t].phase.ids[s.flights[t].phase.k] < |s.log|
    case Finish(t) => t in s.flights && s.flights[t].phase.Ready? && s.flights[t].pos >= |s.flights[t].tasks|
    case CutOff(t) => t in s.flights && !s.flights[t].phase.Queued? && !s.flights[t].phase.Marking?
    case Restart => true
  }

  function PutFlight(s: State, t: Ticket, f: Flight): State {
    s.(flights := s.flights[t := f])
  }

  // notify_worker_finished
  function Land(s: State, t: Ticket): State
    requires t in s.flights
  {
    s.(flights := s.flights - {t}, running := s.running - set i | i in IdsOf(s.flights[t].tasks))
  }

  function NextTask(f: Flight): Flight { f.(pos := f.pos + 1, phase := Ready) }

  // After k + 1 entries of a failed attempt have been committed.
  function AfterFail(f: Flight, ids: seq<ActionId>, n: nat, k: nat, marked: bool): Flight {
    if k + 1 < |ids| then f.(phase := Failing(ids, n, k + 1, marked))
    else if marked || n + 1 >= MAX_RETRIES then NextTask(f)
    else f.(phase := Attempt(ids, n + 1))
  }

  // The assertion that merged entries fail together does not hold for this entry.
  predicate AssertionFires(s: State, t: Ticket)
    requires Enabled(s, FailOne(t))
  {
    var ph := s.flights[t].phase;
    ph.marked && s.log[ph.ids[ph.k]].retries + 1 != MAX_RETRIES
  }

  function DoFail(s: State, t: Ticket): State
    requires Enabled(s, FailOne(t))
  {
    var f := s.flights[t];
    var (ids, n, k, marked) := (f.phase.ids, f.phase.n, f.phase.k, f.phase.marked);
    var i := ids[k];
    if s.log[i].retries + 1 == MAX_RETRIES then
      PutFlight(s.(log := MarkFailed(s.log, i)), t, AfterFail(f, ids, n, k, true))
    else if marked then
      Land(s, t)    // the assertion raises out of the handler, nothing is committed
    else
      PutFlight(s.(log := CountRetry(s.log, i)), t, AfterFail(f, ids, n, k, false))
  }

  function DoProcess(s: State, account: AccountId, batchSize: nat, usable: bool, expired: set<ActionId>): State {
    var ids := NextPending(s.log, account, batchSize);
    var unstarted := BeforeRunning(ids, s.running);
    if !usable then s.(log := Expire(s.log, unstarted, expired))
    else if unstarted != ids || ids == [] then s
    else
      var tasks := TasksFor(s.log, ids);
      s.(running := s.running + (set i | i in IdsOf(tasks)),
         queue := s.queue + [s.nextTicket],
         flights := s.flights[s.nextTicket := Flight(account, tasks, 0, Queued)],
         nextTicket := s.nextTicket + 1)
  }

  function Do(s: State, step: Step): State
    requires Enabled(s, step)
  {
    match step
    case Schedule(account, action, record) => s.(log := s.log + [Entry(account, action, record, Pending, 0)])
    case Process(account, batchSize, usable, expired) => DoProcess(s, account, batchSize, usable, expired)
    case TakeJob => PutFlight(s.(queue := s.queue[1..]), s.queue[0], s.flights[s.queue[0]].(phase := WaitingForSemaphore))
    case Acquire(t) => PutFlight(s, t, s.flights[t].(phase := Ready))
    case BeginTask(t) =>
      var f := s.flights[t];
      var ids := StillPending(s.log, f.tasks[f.pos].ids, f.tasks[f.pos].records).0;
      PutFlight(s, t, if ids == [] then NextTask(f) else f.(phase := Attempt(ids, 0)))
    case Send(t, ok) =>
      var f := s.flights[t];
      PutFlight(s, t, f.(phase := if ok then Marking(f.phase.ids, 0) else Failing(f.phase.ids, f.phase.n, 0, false)))
    case MarkOne(t) =>
      var f := s.flights[t];
      var (ids, k) := (f.phase.ids, f.phase.k);
      PutFlight(s.(log := s.log[ids[k] := s.log[ids[k]].(status := Successful)]), t,
        if k + 1 < |ids| then f.(phase := Marking(ids, k + 1)) else NextTask(f))
    case FailOne(t) => DoFail(s, t)
    case Finish(t) => Land(s, t)
    case CutOff(t) => Land(s, t)
    case Restart => State(s.log, {}, [], map[], s.nextTicket)
  }

  ghost predicate Init(s: State) {
    s.log == [] && s.running == {} && s.queue == [] && s.flights == map[]
  }

  ghost predicate IsRun(states: seq<State>, steps: seq<Step>) {
    && |states| == |steps| + 1
    && Init(states[0])
    && forall i :: 0 <= i < |steps| ==> Enabled(states[i], steps[i]) && states[i + 1] == Do(states[i], steps[i])
  }
}
