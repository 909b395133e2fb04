// How syncback actions end: once finished they stay finished and are never sent again, they fail
// only in three named ways, and a batch that is not cut off leaves nothing of itself pending.
module SyncbackOutcome {
  import opened SyncbackBatching
  import opened SyncbackMachine
  import opened SyncbackOrder

  // The entry that the next commit of batch t is about.
  function Next(s: State, t: Ticket): ActionId
    requires Enabled(s, MarkOne(t)) || Enabled(s, FailOne(t))
  {
    s.flights[t].phase.ids[s.flights[t].phase.k]
  }

  lemma NextIsPending(s: State, t: Ticket)
    requires Inv(s) && (Enabled(s, MarkOne(t)) || Enabled(s, FailOne(t)))
    ensures IsPending(s.log, Next(s, t)) && Has(s.flights[t], Next(s, t))
  {
    var f := s.flights[t];
    var (ids, k) := (f.phase.ids, f.phase.k);
    assert FlightOK(s.log, f);
    assert ids[k] in ids && ids[k..][0] == ids[k];
    NextIsOwn(s.log, f, ids, k);
  }

  // Committing a failed attempt of entry i touches nothing that is not pending.
  lemma FailTouchesPending(s: State, t: Ticket, e: ActionId)
    requires Inv(s) && Enabled(s, FailOne(t)) && e < |s.log| && s.log[e].status != Pending
    ensures e < |DoFail(s, t).log| && DoFail(s, t).log[e] == s.log[e]
  {
    NextIsPending(s, t);
  }

  // No step touches a finished entry.
  lemma FinishedIsFinal(s: State, step: Step, e: ActionId)
    requires Inv(s) && Enabled(s, step) && e < |s.log| && s.log[e].status != Pending
    ensures e < |Do(s, step).log| && Do(s, step).log[e] == s.log[e]
  {
    if step.MarkOne? {
      NextIsPending(s, step.t);
    } else if step.FailOne? {
      FailTouchesPending(s, step.t, e);
    } else if step.Process? {
      var ids := NextPending(s.log, step.account, step.batchSize);
      BeforeRunningIsFree(ids, s.running);
      assert e !in BeforeRunning(ids, s.running);
    }
  }

  lemma FinishedNext(states: seq<State>, steps: seq<Step>, m: nat, e: ActionId)
    requires IsRun(states, steps) && m < |steps| && e < |states[m].log| && states[m].log[e].status != Pending
    ensures e < |states[m + 1].log| && states[m + 1].log[e] == states[m].log[e]
  {
    InvRun(states, steps, m);
    FinishedIsFinal(states[m], steps[m], e);
  }

  lemma {:induction false} FinishedStays(states: seq<State>, steps: seq<Step>, m: nat, m': nat, e: ActionId)
    requires IsRun(states, steps) && m <= m' <= |steps| && e < |states[m].log| && states[m].log[e].status != Pending
    ensures e < |states[m'].log| && states[m'].log[e] == states[m].log[e]
    decreases m'
  {
    if m < m' {
      FinishedStays(states, steps, m, m' - 1, e);
      FinishedNext(states, steps, m' - 1, e);
    }
  }

  // Over a whole run: a finished entry keeps its status, and no later call carries it.
  lemma FinishedForever(states: seq<State>, steps: seq<Step>, m: nat, m': nat, e: ActionId)
    requires IsRun(states, steps) && m <= m' <= |steps| && e < |states[m].log| && states[m].log[e].status != Pending
    ensures e < |states[m'].log| && states[m'].log[e] == states[m].log[e]
    ensures m' < |steps| && steps[m'].Send? ==> e !in states[m'].flights[steps[m'].t].phase.ids
  {
    FinishedStays(states, steps, m, m', e);
    if m' < |steps| && steps[m'].Send? && e in states[m'].flights[steps[m'].t].phase.ids {
      SentInOrder(states, steps, m', e, e);
    }
  }

  // The entry became failed at its own 20th failed attempt.
  predicate FailsAtLimit(s: State, step: Step, e: ActionId) {
    step.FailOne? && Enabled(s, step) && Next(s, step.t) == e && e < |s.log| && s.log[e].retries + 1 == MAX_RETRIES
  }

  // The entry became failed because the creation of its event did.
  predicate FailsByCascade(s: State, step: Step, e: ActionId) {
    && step.FailOne? && Enabled(s, step)
    && s.log[Next(s, step.t)].action == CreateEvent && s.log[Next(s, step.t)].retries + 1 == MAX_RETRIES
    && e < |s.log| && s.log[e].account == s.log[Next(s, step.t)].account && s.log[e].record == s.log[Next(s, step.t)].record
  }

  // The entry became failed because its account was unusable for longer than the grace period.
  predicate FailsByExpiry(s: State, step: Step, e: ActionId) {
    && step.Process? && !step.usable && e in step.expired
    && e in BeforeRunning(NextPending(s.log, step.account, step.batchSize), s.running)
  }

  lemma HowFailingCommitsEnd(s: State, step: Step, e: ActionId)
    requires Inv(s) && step.FailOne? && Enabled(s, step) && IsPending(s.log, e)
    ensures Do(s, step).log[e].status != Successful
    ensures Do(s, step).log[e].status == Failed <==> FailsAtLimit(s, step, e) || FailsByCascade(s, step, e)
    ensures Do(s, step).log[e].retries ==
      if e == Next(s, step.t) && !AssertionFires(s, step.t) then s.log[e].retries + 1 else s.log[e].retries
  {}

  // A pending entry ends in no other way.
  lemma HowActionsEnd(s: State, step: Step, e: ActionId)
    requires Inv(s) && Enabled(s, step) && IsPending(s.log, e)
    ensures Do(s, step).log[e].status == Failed <==>
      FailsAtLimit(s, step, e) || FailsByCascade(s, step, e) || FailsByExpiry(s, step, e)
    ensures Do(s, step).log[e].status == Successful <==> step.MarkOne? && Next(s, step.t) == e
  {
    if step.FailOne? {
      HowFailingCommitsEnd(s, step, e);
    } else if step.Process? {
      BeforeRunningIsFree(NextPending(s.log, step.account, step.batchSize), s.running);
    }
  }

  // A batch that ran to its end leaves none of its entries pending.
  lemma CompletedBatch(s: State, t: Ticket, i: ActionId)
    requires Inv(s) && Enabled(s, Finish(t)) && i in IdsOf(s.flights[t].tasks)
    ensures !IsPending(Do(s, Finish(t)).log, i)
  {
    var f := s.flights[t];
    assert FlightOK(s.log, f);
    MemberOfTask(f.tasks, i);
  }

  // Actions other than label changes are sent for exactly one record.
  lemma OneRecordPerCall(s: State, t: Ticket)
    requires Inv(s) && t in s.flights && s.flights[t].phase.Attempt?
    ensures s.flights[t].pos < |s.flights[t].tasks|
    ensures !Current(s.flights[t]).action.ChangeLabels? ==> |s.flights[t].phase.ids| == 1
  {
    var f := s.flights[t];
    var ids := f.phase.ids;
    assert FlightOK(s.log, f) && TaskMatches(s.log, Current(f));
    if !Current(f).action.ChangeLabels? && |ids| > 1 { TwoDistinct(ids); }
  }

  // ----- runs in which no batch is cut off -----

  predicate Undisturbed(step: Step) { !step.CutOff? && !step.Restart? }

  // The entries of the call that a batch is in the middle of.
  function InCall(f: Flight): seq<ActionId> {
    match f.phase
    case Attempt(ids, _) => ids
    case Marking(ids, _) => ids
    case Failing(ids, _, _, _) => ids
    case _ => []
  }

  // Counters outside the current call are 0, those inside it are the number of failed attempts.
  ghost predicate EvenFlight(log: Log, f: Flight) {
    && (forall i: ActionId :: Has(f, i) && IsPending(log, i) && i !in InCall(f) ==> log[i].retries == 0)
    && (InCall(f) != [] ==> f.pos < |f.tasks| && forall i :: i in InCall(f) ==> i in Current(f).ids)
    && match f.phase
       case Attempt(ids, n) => InLog(log, ids) && forall j :: 0 <= j < |ids| ==> log[ids[j]].retries == n
       case Failing(ids, n, k, marked) =>
         && InLog(log, ids) && (marked ==> n + 1 == MAX_RETRIES)
         && (forall j :: k <= j < |ids| ==> log[ids[j]].retries == n)
         && (!marked ==> forall j :: 0 <= j < k && j < |ids| ==> log[ids[j]].retries == n + 1)
       case _ => true
  }

  ghost predicate Even(s: State) {
    && (forall t :: t in s.flights ==> EvenFlight(s.log, s.flights[t]))
    && (forall i: ActionId :: IsPending(s.log, i) && i !in s.running ==> s.log[i].retries == 0)
  }

  lemma EvenUntouched(log: Log, log': Log, f: Flight)
    requires EvenFlight(log, f) && FlightOK(log, f) && |log| <= |log'|
    requires forall i: ActionId :: Has(f, i) ==> i < |log| && log'[i] == log[i]
    ensures EvenFlight(log', f)
  {
    var ids := InCall(f);
    forall j | 0 <= j < |ids| ensures Has(f, ids[j]) {
      assert ids[j] in ids;
      NextIsOwn(log, f, ids, j);
    }
  }

  // In such a run the assertion that merged entries fail together cannot fire.
  lemma EvenNeverAsserts(s: State, t: Ticket)
    requires Inv(s) && Even(s) && Enabled(s, FailOne(t))
    ensures !AssertionFires(s, t)
  {
    assert EvenFlight(s.log, s.flights[t]);
  }

  // A step of batch t, seen from the batches and entries it does not concern.
  lemma EvenPut(s: State, t: Ticket, f': Flight, log': Log)
    requires Inv(s) && Even(s) && t in s.flights && f'.tasks == s.flights[t].tasks
    requires |log'| == |s.log| && Evolves(s.log, log') && EvenFlight(log', f')
    requires forall i: ActionId :: i < |s.log| && !Has(s.flights[t], i) && IsPending(log', i) ==> log'[i] == s.log[i]
    requires forall u, i: ActionId :: u in s.flights && u != t && Has(s.flights[u], i) ==> log'[i] == s.log[i]
    ensures Even(PutFlight(s.(log := log'), t, f'))
  {
    forall u | u in s.flights && u != t ensures EvenFlight(log', s.flights[u]) {
      assert FlightOK(s.log, s.flights[u]);
      EvenUntouched(s.log, log', s.flights[u]);
    }
    forall i: ActionId | IsPending(log', i) && i !in s.running ensures log'[i].retries == 0 {
      assert !Has(s.flights[t], i);
    }
  }

  lemma EvenLog(s: State, log': Log)
    requires Inv(s) && Even(s) && Evolves(s.log, log')
    requires forall i: ActionId :: i in s.running && i < |s.log| ==> log'[i] == s.log[i]
    requires forall i: ActionId :: IsPending(log', i) && i !in s.running ==> log'[i].retries == 0
    ensures Even(s.(log := log'))
  {
    forall t | t in s.flights ensures EvenFlight(log', s.flights[t]) {
      assert FlightOK(s.log, s.flights[t]);
      forall i: ActionId | Has(s.flights[t], i) ensures i < |s.log| && log'[i] == s.log[i] { assert i in s.running; }
      EvenUntouched(s.log, log', s.flights[t]);
    }
  }

  lemma EvenLaunch(s: State, f: Flight)
    requires Inv(s) && Even(s) && f.phase.Queued? && forall i: ActionId :: Has(f, i) ==> i !in s.running
    ensures Even(Launch(s, f))
  {
    assert EvenFlight(s.log, f);
    assert forall t :: t in s.flights ==> t < s.nextTicket;
  }

  lemma EvenProcess(s: State, account: AccountId, batchSize: nat, usable: bool, expired: set<ActionId>)
    requires Inv(s) && Even(s)
    ensures Even(DoProcess(s, account, batchSize, usable, expired))
  {
    var ids := NextPending(s.log, account, batchSize);
    var unstarted := BeforeRunning(ids, s.running);
    BeforeRunningIsFree(ids, s.running);
    if !usable {
      ExpireEvolves(s.log, unstarted, expired);
      var log' := Expire(s.log, unstarted, expired);
      assert forall j: ActionId :: IsPending(log', j) ==> IsPending(s.log, j) && log'[j] == s.log[j];
      EvenLog(s, log');
    } else if unstarted == ids && ids != [] {
      NewFlightOK(s.log, account, ids);
      EvenLaunch(s, Flight(account, TasksFor(s.log, ids), 0, Queued));
    }
  }

  lemma EvenSameCall(log: Log, f: Flight, f': Flight)
    requires EvenFlight(log, f) && f'.tasks == f.tasks && f'.account == f.account && f'.pos == f.pos
    requires ((InCall(f) == [] && (f'.phase.WaitingForSemaphore? || f'.phase.Ready?)) || (f.phase.Attempt? && f'.phase == Marking(f.phase.ids, 0))
              || (f.phase.Attempt? && f'.phase == Failing(f.phase.ids, f.phase.n, 0, false)))
    ensures EvenFlight(log, f')
  {
    assert forall i: ActionId :: Has(f', i) == Has(f, i);
  }

  lemma EvenQuiet(s: State, step: Step)
    requires Inv(s) && Even(s) && Enabled(s, step) && (step.TakeJob? || step.Acquire? || step.Send?)
    ensures Even(Do(s, step))
  {
    var t := if step.TakeJob? then s.queue[0] else step.t;
    var f' := Do(s, step).flights[t];
    assert EvenFlight(s.log, s.flights[t]) && FlightOK(s.log, s.flights[t]);
    EvenSameCall(s.log, s.flights[t], f');
    EvenPut(s, t, f', s.log);
    assert Do(s, step) == PutFlight(s, t, f').(queue := Do(s, step).queue);
  }

  lemma EvenBegin(s: State, t: Ticket)
    requires Inv(s) && Even(s) && Enabled(s, BeginTask(t))
    ensures Even(Do(s, BeginTask(t)))
  {
    var f := s.flights[t];
    var f' := Do(s, BeginTask(t)).flights[t];
    var task := Current(f);
    assert EvenFlight(s.log, f) && FlightOK(s.log, f);
    assert forall i: ActionId :: Has(f', i) == Has(f, i);
    StillPendingIsExact(s.log, task.ids, task.records);
    var ids := StillPending(s.log, task.ids, task.records).0;
    forall j | 0 <= j < |ids| ensures ids[j] < |s.log| && s.log[ids[j]].retries == 0 {
      assert ids[j] in ids;
      NextIsOwn(s.log, f, ids, j);
    }
    EvenPut(s, t, f', s.log);
  }

  // A batch leaves its current task with nothing of it pending.
  lemma EvenNextTask(log: Log, f: Flight, f': Flight)
    requires (forall i: ActionId :: Has(f, i) && IsPending(log, i) && i !in InCall(f) ==> log[i].retries == 0)
    requires f.pos < |f.tasks| && (forall i :: i in InCall(f) ==> i in Current(f).ids) && f' == NextTask(f)
    requires forall i: ActionId :: i in Current(f).ids ==> !IsPending(log, i)
    ensures EvenFlight(log, f')
  {
    assert forall i: ActionId :: Has(f', i) == Has(f, i);
  }

  lemma EvenPutOne(s: State, t: Ticket, f': Flight, i: ActionId, entry: Entry)
    requires Inv(s) && Even(s) && t in s.flights && f'.tasks == s.flights[t].tasks && Has(s.flights[t], i) && IsPending(s.log, i)
    requires entry == s.log[i].(status := entry.status, retries := entry.retries) && EvenFlight(s.log[i := entry], f')
    ensures Even(PutFlight(s.(log := s.log[i := entry]), t, f'))
  {
    EvenPut(s, t, f', s.log[i := entry]);
  }

  lemma EvenMark(s: State, t: Ticket)
    requires Inv(s) && Even(s) && Enabled(s, MarkOne(t))
    ensures Even(Do(s, MarkOne(t)))
  {
    var f := s.flights[t];
    var f' := Do(s, MarkOne(t)).flights[t];
    assert EvenFlight(s.log, f) && FlightOK(s.log, f);
    NextIsPending(s, t);
    EvenMarked(s.log, Do(s, MarkOne(t)).log, f, f');
    EvenPutOne(s, t, f', Next(s, t), s.log[Next(s, t)].(status := Successful));
  }

  lemma EvenMarked(log: Log, log': Log, f: Flight, f': Flight)
    requires EvenFlight(log, f) && FlightOK(log, f) && f.phase.Marking? && f.phase.ids[f.phase.k] < |log|
    requires log' == log[f.phase.ids[f.phase.k] := log[f.phase.ids[f.phase.k]].(status := Successful)]
    requires f' == if f.phase.k + 1 < |f.phase.ids| then f.(phase := Marking(f.phase.ids, f.phase.k + 1)) else NextTask(f)
    ensures EvenFlight(log', f')
  {
    var (ids, k) := (f.phase.ids, f.phase.k);
    assert forall i: ActionId :: Has(f', i) == Has(f, i);
    RestShrinks(log, log', f, ids, k);
    if k + 1 >= |ids| { EvenNextTask(log', f, f'); }
  }

  // Counting a retry of entry k of a call: its counter and no other.
  lemma CountersAfterRetry(log: Log, ids: seq<ActionId>, k: nat)
    requires Ascending(ids) && InLog(log, ids) && k < |ids|
    ensures CountRetry(log, ids[k])[ids[k]].retries == log[ids[k]].retries + 1
    ensures forall j :: 0 <= j < |ids| && j != k ==> CountRetry(log, ids[k])[ids[j]] == log[ids[j]]
    ensures forall i: ActionId :: i < |log| && i !in ids ==> CountRetry(log, ids[k])[i] == log[i]
  {
    assert ids[k] in ids;
    forall j | 0 <= j < |ids| && j != k ensures ids[j] != ids[k] {
      if j < k { assert ids[j] < ids[k]; } else { assert ids[k] < ids[j]; }
    }
  }

  lemma EvenRetried(log: Log, f: Flight, ids: seq<ActionId>, n: nat, k: nat)
    requires LogOK(log) && EvenFlight(log, f) && FlightOK(log, f) && f.phase == Failing(ids, n, k, false)
    requires log[ids[k]].retries + 1 != MAX_RETRIES
    ensures EvenFlight(CountRetry(log, ids[k]), AfterFail(f, ids, n, k, false))
  {
    var f' := AfterFail(f, ids, n, k, false);
    CountersAfterRetry(log, ids, k);
    assert ids[k] in ids && IsPending(log, ids[k]) && n + 1 < MAX_RETRIES;
    assert f' == f.(phase := if k + 1 < |ids| then Failing(ids, n, k + 1, false) else Attempt(ids, n + 1));
    assert InCall(f') == ids && Ids(f') == Ids(f);
    forall i: ActionId | Has(f', i) && IsPending(CountRetry(log, ids[k]), i) && i !in ids
      ensures CountRetry(log, ids[k])[i].retries == 0
    {
      assert Has(f, i) && IsPending(log, i) && i !in InCall(f);
    }
  }

  lemma EvenGivenUp(log: Log, f: Flight, ids: seq<ActionId>, n: nat, k: nat, marked: bool)
    requires LogOK(log) && EvenFlight(log, f) && FlightOK(log, f) && f.phase == Failing(ids, n, k, marked)
    requires log[ids[k]].retries + 1 == MAX_RETRIES
    ensures EvenFlight(MarkFailed(log, ids[k]), AfterFail(f, ids, n, k, true))
  {
    var log' := MarkFailed(log, ids[k]);
    var f' := AfterFail(f, ids, n, k, true);
    MarkFailedEvolves(log, ids[k]);
    assert forall i: ActionId :: Has(f', i) == Has(f, i);
    assert forall i: ActionId :: i < |log| && i != ids[k] ==> log'[i].retries == log[i].retries;
    if k + 1 < |ids| {
      assert forall j :: k < j < |ids| ==> ids[j] != ids[k];
    } else {
      FirstReachesLimit(log, f, ids, n, k, marked);
      assert ids[k..] == [ids[k]];
      EvenNextTask(log', f, f');
    }
  }

  lemma EvenFail(s: State, t: Ticket)
    requires Inv(s) && Even(s) && Enabled(s, FailOne(t))
    ensures Even(DoFail(s, t))
  {
    var f := s.flights[t];
    assert EvenFlight(s.log, f) && FlightOK(s.log, f);
    EvenNeverAsserts(s, t);
    NextIsPending(s, t);
    var (ids, n, k, marked) := (f.phase.ids, f.phase.n, f.phase.k, f.phase.marked);
    if s.log[ids[k]].retries + 1 == MAX_RETRIES {
      EvenGiveUpAt(s, t, f, ids, n, k, marked);
    } else if !marked {
      EvenRetryAt(s, t, f, ids, n, k);
    }
  }

  lemma EvenGiveUpAt(s: State, t: Ticket, f: Flight, ids: seq<ActionId>, n: nat, k: nat, marked: bool)
    requires Inv(s) && Even(s) && t in s.flights && s.flights[t] == f && f.phase == Failing(ids, n, k, marked)
    requires EvenFlight(s.log, f) && FlightOK(s.log, f) && IsPending(s.log, ids[k]) && Has(f, ids[k])
    requires s.log[ids[k]].retries + 1 == MAX_RETRIES
    ensures Even(PutFlight(s.(log := MarkFailed(s.log, ids[k])), t, AfterFail(f, ids, n, k, true)))
  {
    EvenGivenUp(s.log, f, ids, n, k, marked);
    EvenFailTail(s, t, ids[k], MarkFailed(s.log, ids[k]), AfterFail(f, ids, n, k, true));
  }

  lemma EvenRetryAt(s: State, t: Ticket, f: Flight, ids: seq<ActionId>, n: nat, k: nat)
    requires Inv(s) && Even(s) && t in s.flights && s.flights[t] == f && f.phase == Failing(ids, n, k, false)
    requires EvenFlight(s.log, f) && FlightOK(s.log, f) && IsPending(s.log, ids[k]) && Has(f, ids[k])
    requires s.log[ids[k]].retries + 1 != MAX_RETRIES
    ensures Even(PutFlight(s.(log := CountRetry(s.log, ids[k])), t, AfterFail(f, ids, n, k, false)))
  {
    EvenRetried(s.log, f, ids, n, k);
    EvenPutOne(s, t, AfterFail(f, ids, n, k, false), ids[k], CountRetry(s.log, ids[k])[ids[k]]);
  }

  lemma EvenFailTail(s: State, t: Ticket, i: ActionId, log': Log, f': Flight)
    requires Inv(s) && Even(s) && t in s.flights && f'.tasks == s.flights[t].tasks
    requires IsPending(s.log, i) && Has(s.flights[t], i) && log' == MarkFailed(s.log, i) && EvenFlight(log', f')
    ensures Even(PutFlight(s.(log := log'), t, f'))
  {
    MarkFailedEvolves(s.log, i);
    assert FlightOK(s.log, s.flights[t]);
    forall u, e: ActionId | u in s.flights && u != t && Has(s.flights[u], e) ensures log'[e] == s.log[e] {
      assert FlightOK(s.log, s.flights[u]);
      if IsPending(s.log, e) && s.log[e].account == s.log[i].account { OneActiveBatch(s, t, u, i, e); }
    }
    EvenPut(s, t, f', log');
  }

  lemma EvenFinish(s: State, t: Ticket)
    requires Inv(s) && Even(s) && Enabled(s, Finish(t))
    ensures Even(Do(s, Finish(t)))
  {
    var s' := Do(s, Finish(t));
    forall i: ActionId | IsPending(s'.log, i) && i !in s'.running ensures s'.log[i].retries == 0 {
      if i in IdsOf(s.flights[t].tasks) { CompletedBatch(s, t, i); }
    }
  }

  lemma EvenStep(s: State, step: Step)
    requires Inv(s) && Even(s) && Enabled(s, step) && Undisturbed(step)
    ensures Even(Do(s, step))
  {
    match step
    case Schedule(account, action, record) => EvenLog(s, s.log + [Entry(account, action, record, Pending, 0)]);
    case Process(account, batchSize, usable, expired) => EvenProcess(s, account, batchSize, usable, expired);
    case BeginTask(t) => EvenBegin(s, t);
    case MarkOne(t) => EvenMark(s, t);
    case FailOne(t) => EvenFail(s, t);
    case Finish(t) => EvenFinish(s, t);
    case _ => EvenQuiet(s, step);
  }

  lemma {:induction false} EvenRun(states: seq<State>, steps: seq<Step>, m: nat)
    requires IsRun(states, steps) && m <= |steps| && forall j :: 0 <= j < m ==> Undisturbed(steps[j])
    ensures Even(states[m])
  {
    if m > 0 {
      EvenRun(states, steps, m - 1);
      InvRun(states, steps, m - 1);
      EvenStep(states[m - 1], steps[m - 1]);
    }
  }

  // In a run without cut-offs and restarts the assertion never fires, every entry of a failing
  // call has failed exactly as often as the call has, and an entry is given up exactly when the
  // 20th attempt fails.
  lemma UndisturbedOutcome(states: seq<State>, steps: seq<Step>, m: nat)
    requires IsRun(states, steps) && m < |steps| && (forall j :: 0 <= j < m ==> Undisturbed(steps[j])) && steps[m].FailOne?
    ensures !AssertionFires(states[m], steps[m].t)
    ensures states[m].log[Next(states[m], steps[m].t)].retries == states[m].flights[steps[m].t].phase.n
    ensures Do(states[m], steps[m]).log[Next(states[m], steps[m].t)].status == Failed
       <==> states[m].flights[steps[m].t].phase.n + 1 == MAX_RETRIES
    ensures steps[m].t in Do(states[m], steps[m]).flights
  {
    InvRun(states, steps, m);
    EvenRun(states, steps, m);
    var s, t := states[m], steps[m].t;
    assert EvenFlight(s.log, s.flights[t]);
    EvenNeverAsserts(s, t);
    NextIsPending(s, t);
    HowFailingCommitsEnd(s, steps[m], Next(s, t));
  }
}
