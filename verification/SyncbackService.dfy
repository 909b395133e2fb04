// The syncback service as the code updates its fields (inbox/transactions/actions.py). The loops
// are proved to compute the functions below, and these are proved to finish the task.
module SyncbackService {
  import opened Common
  import opened SyncbackBatching
  import opened SyncbackMachine
  import opened SyncbackOrder

  // ----- batching -----

  lemma {:induction false} BeforeRunningSnoc(ids: seq<ActionId>, running: set<ActionId>, n: nat)
    requires n < |ids| && BeforeRunning(ids[..n], running) == ids[..n]
    ensures ids[n] in running ==> BeforeRunning(ids, running) == ids[..n]
    ensures ids[n] !in running ==> BeforeRunning(ids[..n + 1], running) == ids[..n + 1]
  {
    if n > 0 {
      assert ids[..n][1..] == ids[1..][..n - 1] && ids[..n + 1][1..] == ids[1..][..n];
      BeforeRunningSnoc(ids[1..], running, n - 1);
      assert ids[..n] == [ids[0]] + ids[1..][..n - 1] && ids[..n + 1] == [ids[0]] + ids[1..][..n];
    } else {
      assert ids[..1][1..] == [];
      assert ids[..1] == [ids[0]];
    }
  }

  function ExpireOne(log: Log, i: ActionId, expired: set<ActionId>): Log
    requires i < |log|
  {
    if i in expired then log[i := log[i].(status := Failed)] else log
  }

  lemma ExpireSnoc(log: Log, ids: seq<ActionId>, n: nat, expired: set<ActionId>)
    requires n < |ids| && ids[n] < |log|
    ensures Expire(log, ids[..n + 1], expired) == ExpireOne(Expire(log, ids[..n], expired), ids[n], expired)
  {
    assert ids[..n + 1] == ids[..n] + [ids[n]];
  }

  // One round of the batching loop on the list of tasks whose last one may still grow.
  lemma TasksForSnoc(log: Log, ids: seq<ActionId>, n: nat)
    requires InLog(log, ids) && n < |ids|
    ensures TasksFor(log, ids[..n + 1]) == Append(TasksFor(log, ids[..n]), Single(log, ids[n]))
  {
    assert ids[..n + 1][..n] == ids[..n];
  }

  lemma AppendToLast(tasks: seq<Task>, last: Task, t: Task)
    ensures Append(tasks + [last], t) == match TryMerge(last, t) case Some(m) => tasks + [m] case None => tasks + [last] + [t]
  {
    assert (tasks + [last])[..|tasks|] == tasks;
  }

  // ----- executing one task -----

  datatype Handled = Handled(log: Log, marked: bool, asserted: bool)

  // The handler of a failed call, from the k-th entry on.
  function HandleFailure(log: Log, ids: seq<ActionId>, k: nat, marked: bool): (h: Handled)
    requires InLog(log, ids) && k <= |ids|
    ensures |h.log| == |log|
    decreases |ids| - k
  {
    if k == |ids| then Handled(log, marked, false)
    else if log[ids[k]].retries + 1 == MAX_RETRIES then HandleFailure(MarkFailed(log, ids[k]), ids, k + 1, true)
    else if marked then Handled(log, marked, true)
    else HandleFailure(CountRetry(log, ids[k]), ids, k + 1, false)
  }

  function MarkSuccessful(log: Log, i: ActionId): Log
    requires i < |log|
  {
    log[i := log[i].(status := Successful)]
  }

  function MarkAllSuccessful(log: Log, ids: seq<ActionId>, k: nat): (log': Log)
    requires InLog(log, ids) && k <= |ids|
    ensures |log'| == |log|
    decreases |ids| - k
  {
    if k == |ids| then log else MarkAllSuccessful(MarkSuccessful(log, ids[k]), ids, k + 1)
  }

  // The attempts from the n-th on; `succeeds` is the outcome of each call of the server.
  function Attempts(log: Log, ids: seq<ActionId>, n: nat, succeeds: nat -> bool): (r: (Log, bool))
    requires InLog(log, ids) && n <= MAX_RETRIES
    ensures |r.0| == |log|
    decreases MAX_RETRIES - n
  {
    if n == MAX_RETRIES then (log, true)
    else if succeeds(n) then (MarkAllSuccessful(log, ids, 0), true)
    else
      var h := HandleFailure(log, ids, 0, false);
      if h.asserted then (h.log, false)
      else if h.marked then (h.log, true)
      else Attempts(h.log, ids, n + 1, succeeds)
  }

  lemma EvolvesTransitive(a: Log, b: Log, c: Log)
    requires Evolves(a, b) && Evolves(b, c)
    ensures Evolves(a, c)
  {}

  lemma {:induction false} MarkAllEvolves(log: Log, ids: seq<ActionId>, k: nat)
    requires InLog(log, ids) && k <= |ids|
    ensures Evolves(log, MarkAllSuccessful(log, ids, k))
    ensures LogOK(log) ==> LogOK(MarkAllSuccessful(log, ids, k))
    decreases |ids| - k
  {
    if k < |ids| {
      var log1 := MarkSuccessful(log, ids[k]);
      if LogOK(log) { FinishKeepsLogOK(log, ids[k], log1[ids[k]]); }
      MarkAllEvolves(log1, ids, k + 1);
      EvolvesTransitive(log, log1, MarkAllSuccessful(log, ids, k));
    }
  }

  lemma {:induction false} HandlerEvolves(log: Log, ids: seq<ActionId>, k: nat, marked: bool)
    requires InLog(log, ids) && k <= |ids|
    ensures Evolves(log, HandleFailure(log, ids, k, marked).log)
    decreases |ids| - k
  {
    if k < |ids| {
      if log[ids[k]].retries + 1 == MAX_RETRIES {
        HandlerEvolves(MarkFailed(log, ids[k]), ids, k + 1, true);
        EvolvesTransitive(log, MarkFailed(log, ids[k]), HandleFailure(log, ids, k, marked).log);
      } else if !marked {
        HandlerEvolves(CountRetry(log, ids[k]), ids, k + 1, false);
        EvolvesTransitive(log, CountRetry(log, ids[k]), HandleFailure(log, ids, k, marked).log);
      }
    }
  }

  predicate NonePending(log: Log, ids: seq<ActionId>) {
    forall i: ActionId :: i in ids ==> !IsPending(log, i)
  }

  lemma OverMeansNonePending(log: Log, f: Flight)
    requires f.pos < |f.tasks| && FlightOK(log, NextTask(f))
    ensures NonePending(log, Current(f).ids)
  {
    var f' := NextTask(f);
    assert f'.tasks[f.pos] == Current(f);
  }

  lemma {:induction false} MarkAllFinishes(log: Log, f: Flight, ids: seq<ActionId>, k: nat)
    requires FlightOK(log, f) && f.phase == Marking(ids, k)
    ensures NonePending(MarkAllSuccessful(log, ids, k), Current(f).ids)
    decreases |ids| - k
  {
    var log1 := MarkSuccessful(log, ids[k]);
    MarkedFlightOK(log, f);
    if k + 1 < |ids| {
      MarkAllFinishes(log1, f.(phase := Marking(ids, k + 1)), ids, k + 1);
    } else {
      OverMeansNonePending(log1, f);
    }
  }

  // Marking makes exactly the listed entries successful and changes nothing else.
  lemma {:induction false} MarkAllIsExact(log: Log, ids: seq<ActionId>, k: nat, i: ActionId)
    requires InLog(log, ids) && k <= |ids| && i < |log|
    ensures MarkAllSuccessful(log, ids, k)[i] == if i in ids[k..] then log[i].(status := Successful) else log[i]
    decreases |ids| - k
  {
    if k < |ids| {
      assert ids[k..] == [ids[k]] + ids[k + 1..];
      MarkAllIsExact(MarkSuccessful(log, ids[k]), ids, k + 1, i);
    }
  }

  // Once an entry has reached the limit, all of them do or the assertion raises.
  lemma {:induction false} LimitReached(log: Log, f: Flight, ids: seq<ActionId>, n: nat, k: nat, marked: bool)
    requires LogOK(log) && FlightOK(log, f) && f.phase == Failing(ids, n, k, marked) && log[ids[k]].retries + 1 == MAX_RETRIES
    ensures var h := HandleFailure(log, ids, k, marked);
      h.marked && LogOK(h.log) && (!h.asserted ==> NonePending(h.log, Current(f).ids))
    decreases |ids| - k
  {
    var log1 := MarkFailed(log, ids[k]);
    MarkFailedEvolves(log, ids[k]);
    GivenUpFlightOK(log, f, ids, n, k, marked);
    if k + 1 < |ids| {
      if log1[ids[k + 1]].retries + 1 == MAX_RETRIES {
        LimitReached(log1, f.(phase := Failing(ids, n, k + 1, true)), ids, n, k + 1, true);
      }
    } else {
      OverMeansNonePending(log1, f);
    }
  }

  // With an entry at the limit, the assertion raises exactly if a later one is not.
  lemma {:induction false} AssertedIff(log: Log, ids: seq<ActionId>, k: nat)
    requires Ascending(ids) && InLog(log, ids) && k <= |ids|
    ensures HandleFailure(log, ids, k, true).asserted <==> exists j :: k <= j < |ids| && log[ids[j]].retries + 1 != MAX_RETRIES
    decreases |ids| - k
  {
    if k < |ids| && log[ids[k]].retries + 1 == MAX_RETRIES {
      var log1 := MarkFailed(log, ids[k]);
      AssertedIff(log1, ids, k + 1);
      forall j | k < j < |ids| ensures log1[ids[j]].retries == log[ids[j]].retries { assert ids[k] < ids[j]; }
    }
  }

  // In a failed call of a batch, the assertion that merged entries fail together raises if and only
  // if the first entry reaches the limit and another one does not.
  lemma AssertionRaisesIff(log: Log, f: Flight, ids: seq<ActionId>, n: nat)
    requires LogOK(log) && FlightOK(log, InPhase(f, Failing(ids, n, 0, false)))
    ensures HandleFailure(log, ids, 0, false).asserted <==>
      log[ids[0]].retries + 1 == MAX_RETRIES && exists j :: 0 < j < |ids| && log[ids[j]].retries + 1 != MAX_RETRIES
  {
    if log[ids[0]].retries + 1 == MAX_RETRIES {
      var log1 := MarkFailed(log, ids[0]);
      AssertedIff(log1, ids, 1);
      forall j | 0 < j < |ids| ensures log1[ids[j]].retries == log[ids[j]].retries { assert ids[0] < ids[j]; }
    } else {
      AllRetry(log, f, ids, n, 0);
    }
  }

  function InPhase(f: Flight, phase: Phase): Flight { f.(phase := phase) }

  // One entry below the limit: the rest of the call is below it too, or the call is over.
  lemma RetryStep(log: Log, f: Flight, ids: seq<ActionId>, n: nat, k: nat)
    requires LogOK(log) && FlightOK(log, InPhase(f, Failing(ids, n, k, false))) && log[ids[k]].retries + 1 != MAX_RETRIES
    ensures LogOK(CountRetry(log, ids[k])) && n + 1 < MAX_RETRIES
    ensures k + 1 < |ids| ==>
      && FlightOK(CountRetry(log, ids[k]), InPhase(f, Failing(ids, n, k + 1, false)))
      && CountRetry(log, ids[k])[ids[k + 1]].retries + 1 != MAX_RETRIES
    ensures k + 1 == |ids| ==> FlightOK(CountRetry(log, ids[k]), InPhase(f, Attempt(ids, n + 1)))
  {
    var f0 := InPhase(f, Failing(ids, n, k, false));
    BelowLimit(log, f0, ids, n, k);
    RetryKeepsLogOK(log, f0, ids, n, k);
    RetriedFlightOK(log, f0, ids, n, k);
  }

  // Below the limit, every entry counts one more retry and the call is made again.
  lemma {:induction false} AllRetry(log: Log, f: Flight, ids: seq<ActionId>, n: nat, k: nat)
    requires LogOK(log) && FlightOK(log, InPhase(f, Failing(ids, n, k, false))) && log[ids[k]].retries + 1 != MAX_RETRIES
    ensures var h := HandleFailure(log, ids, k, false);
      !h.marked && !h.asserted && LogOK(h.log) && n + 1 < MAX_RETRIES && FlightOK(h.log, InPhase(f, Attempt(ids, n + 1)))
    decreases |ids| - k
  {
    RetryStep(log, f, ids, n, k);
    if k + 1 < |ids| { AllRetry(CountRetry(log, ids[k]), f, ids, n, k + 1); }
  }

  // A call that leaves its first entry below the limit was not the last attempt.
  lemma BelowLimit(log: Log, f: Flight, ids: seq<ActionId>, n: nat, k: nat)
    requires LogOK(log) && FlightOK(log, f) && f.phase == Failing(ids, n, k, false)
    requires log[ids[k]].retries + 1 != MAX_RETRIES
    ensures n + 1 < MAX_RETRIES
  {
    FirstStaysAhead(log, f, ids, n, k);
    RetryKeepsLogOK(log, f, ids, n, k);
    assert ids[0] in ids && IsPending(log, ids[0]);
    assert IsPending(CountRetry(log, ids[k]), ids[0]);
  }

  // ----- how the entries of a task end -----

  lemma {:induction false} StaysMarked(log: Log, ids: seq<ActionId>, k: nat)
    requires InLog(log, ids) && k <= |ids|
    ensures HandleFailure(log, ids, k, true).marked
    decreases |ids| - k
  {
    if k < |ids| && log[ids[k]].retries + 1 == MAX_RETRIES { StaysMarked(MarkFailed(log, ids[k]), ids, k + 1); }
  }

  // A handler that gives up no entry counts one retry for each from the k-th on, and nothing else.
  lemma {:induction false} RetryIsExact(log: Log, ids: seq<ActionId>, k: nat, i: ActionId)
    requires Ascending(ids) && InLog(log, ids) && k <= |ids| && !HandleFailure(log, ids, k, false).marked && i < |log|
    ensures HandleFailure(log, ids, k, false).log[i] == if i in ids[k..] then log[i].(retries := log[i].retries + 1) else log[i]
    decreases |ids| - k
  {
    if k < |ids| {
      assert ids[k..] == [ids[k]] + ids[k + 1..];
      NotAgain(ids, k);
      if log[ids[k]].retries + 1 == MAX_RETRIES {
        StaysMarked(MarkFailed(log, ids[k]), ids, k + 1);
      } else {
        RetryIsExact(CountRetry(log, ids[k]), ids, k + 1, i);
      }
    }
  }

  lemma NotAgain(ids: seq<ActionId>, k: nat)
    requires Ascending(ids) && k < |ids|
    ensures ids[k] !in ids[k + 1..]
  {
    var rest := ids[k + 1..];
    forall j | 0 <= j < |rest| ensures rest[j] != ids[k] { assert rest[j] == ids[k + 1 + j]; }
  }

  // If the assertion holds, every entry from the k-th on fails, and finished entries stay as they are.
  lemma {:induction false} EntryFails(log: Log, ids: seq<ActionId>, k: nat, marked: bool, i: ActionId)
    requires Ascending(ids) && InLog(log, ids) && k < |ids| && log[ids[k]].retries + 1 == MAX_RETRIES && i < |log|
    requires !HandleFailure(log, ids, k, marked).asserted && (i in ids[k..] || log[i].status != Pending)
    ensures HandleFailure(log, ids, k, marked).log[i] ==
      if i in ids[k..] then log[i].(status := Failed, retries := MAX_RETRIES) else log[i]
    decreases |ids| - k
  {
    var log1 := MarkFailed(log, ids[k]);
    assert ids[k..] == [ids[k]] + ids[k + 1..];
    NotAgain(ids, k);
    if k + 1 < |ids| {
      assert ids[k] < ids[k + 1] && log1[ids[k + 1]].retries == log[ids[k + 1]].retries;
      if log1[ids[k + 1]].retries + 1 == MAX_RETRIES { EntryFails(log1, ids, k + 1, true, i); }
    }
  }

  lemma AllFail(log: Log, ids: seq<ActionId>)
    requires Ascending(ids) && InLog(log, ids) && ids != [] && log[ids[0]].retries + 1 == MAX_RETRIES
    requires !HandleFailure(log, ids, 0, false).asserted
    ensures forall j :: 0 <= j < |ids| ==>
      HandleFailure(log, ids, 0, false).log[ids[j]] == log[ids[j]].(status := Failed, retries := MAX_RETRIES)
  {
    assert ids[0..] == ids;
    forall j | 0 <= j < |ids|
      ensures HandleFailure(log, ids, 0, false).log[ids[j]] == log[ids[j]].(status := Failed, retries := MAX_RETRIES)
    {
      EntryFails(log, ids, 0, false, ids[j]);
    }
  }

  // Some call succeeds before the entries have failed as often as they may.
  ghost predicate SucceedsInTime(succeeds: nat -> bool, n: nat, retries: nat) {
    exists j :: n <= j < n + MAX_RETRIES - retries && succeeds(j)
  }

  predicate SameRetries(log: Log, ids: seq<ActionId>)
    requires InLog(log, ids)
  {
    forall j :: 0 <= j < |ids| ==> log[ids[j]].retries == log[ids[0]].retries
  }

  lemma OneCallLess(succeeds: nat -> bool, n: nat, retries: nat)
    requires retries < MAX_RETRIES
    ensures SucceedsInTime(succeeds, n, retries) <==> succeeds(n) || SucceedsInTime(succeeds, n + 1, retries + 1)
  {}

  lemma AttemptFacts(log: Log, f: Flight, ids: seq<ActionId>, n: nat)
    requires LogOK(log) && FlightOK(log, InPhase(f, Attempt(ids, n)))
    ensures ids != [] && Ascending(ids) && InLog(log, ids) && n < MAX_RETRIES && log[ids[0]].retries < MAX_RETRIES
    ensures FlightOK(log, InPhase(f, Failing(ids, n, 0, false)))
  {
    assert ids[0] in ids && IsPending(log, ids[0]);
    SamePlan(log, InPhase(f, Attempt(ids, n)), InPhase(f, Failing(ids, n, 0, false)));
  }

  lemma AllMarked(log: Log, ids: seq<ActionId>)
    requires InLog(log, ids)
    ensures forall j :: 0 <= j < |ids| ==> MarkAllSuccessful(log, ids, 0)[ids[j]].status == Successful
  {
    assert ids[0..] == ids;
    forall j | 0 <= j < |ids| ensures MarkAllSuccessful(log, ids, 0)[ids[j]].status == Successful {
      MarkAllIsExact(log, ids, 0, ids[j]);
    }
  }

  // The attempts from the n-th on end as the first entry's counter, the calls that are left to it
  // and the other counters say.
  ghost predicate EndsAs(log: Log, ids: seq<ActionId>, n: nat, succeeds: nat -> bool, log': Log, completed: bool)
    requires ids != [] && InLog(log, ids) && |log'| == |log|
  {
    var success := SucceedsInTime(succeeds, n, log[ids[0]].retries);
    && (completed <==> success || SameRetries(log, ids))
    && (completed ==> forall j :: 0 <= j < |ids| ==> log'[ids[j]].status == if success then Successful else Failed)
  }

  // Exactly how the attempts end. If one of the calls that are left succeeds, all entries are
  // successful; otherwise all fail, or, if their counters differ, the assertion raises.
  lemma {:induction false} AttemptsOutcome(log: Log, f: Flight, ids: seq<ActionId>, n: nat, succeeds: nat -> bool)
    requires LogOK(log) && FlightOK(log, InPhase(f, Attempt(ids, n)))
    ensures ids != [] && InLog(log, ids)
    ensures var (log', completed) := Attempts(log, ids, n, succeeds); EndsAs(log, ids, n, succeeds, log', completed)
    decreases MAX_RETRIES - n
  {
    AttemptFacts(log, f, ids, n);
    OneCallLess(succeeds, n, log[ids[0]].retries);
    if succeeds(n) {
      AllMarked(log, ids);
    } else if log[ids[0]].retries + 1 == MAX_RETRIES {
      LastCallFails(log, f, ids, n, succeeds);
    } else {
      CallFails(log, f, ids, n);
      AttemptsOutcome(HandleFailure(log, ids, 0, false).log, f, ids, n + 1, succeeds);
    }
  }

  lemma LastCallFails(log: Log, f: Flight, ids: seq<ActionId>, n: nat, succeeds: nat -> bool)
    requires LogOK(log) && FlightOK(log, InPhase(f, Failing(ids, n, 0, false)))
    requires log[ids[0]].retries + 1 == MAX_RETRIES && !succeeds(n)
    ensures !SucceedsInTime(succeeds, n, log[ids[0]].retries)
    ensures var h := HandleFailure(log, ids, 0, false);
      && h.marked && (!h.asserted <==> SameRetries(log, ids))
      && (!h.asserted ==> forall j :: 0 <= j < |ids| ==> h.log[ids[j]].status == Failed)
  {
    AssertionRaisesIff(log, f, ids, n);
    LimitReached(log, InPhase(f, Failing(ids, n, 0, false)), ids, n, 0, false);
    if !HandleFailure(log, ids, 0, false).asserted { AllFail(log, ids); }
  }

  lemma CallFails(log: Log, f: Flight, ids: seq<ActionId>, n: nat)
    requires LogOK(log) && FlightOK(log, InPhase(f, Failing(ids, n, 0, false))) && log[ids[0]].retries + 1 != MAX_RETRIES
    ensures var h := HandleFailure(log, ids, 0, false);
      && !h.marked && !h.asserted && LogOK(h.log) && n + 1 < MAX_RETRIES && FlightOK(h.log, InPhase(f, Attempt(ids, n + 1)))
      && h.log[ids[0]].retries == log[ids[0]].retries + 1
      && (SameRetries(h.log, ids) <==> SameRetries(log, ids))
  {
    AllRetry(log, f, ids, n, 0);
    assert ids[0..] == ids;
    forall j | 0 <= j < |ids| ensures HandleFailure(log, ids, 0, false).log[ids[j]].retries == log[ids[j]].retries + 1 {
      RetryIsExact(log, ids, 0, ids[j]);
    }
  }

  lemma {:induction false} AttemptsEvolve(log: Log, ids: seq<ActionId>, n: nat, succeeds: nat -> bool)
    requires InLog(log, ids) && n <= MAX_RETRIES
    ensures Evolves(log, Attempts(log, ids, n, succeeds).0)
    decreases MAX_RETRIES - n
  {
    if n < MAX_RETRIES {
      MarkAllEvolves(log, ids, 0);
      HandlerEvolves(log, ids, 0, false);
      var h := HandleFailure(log, ids, 0, false);
      AttemptsEvolve(h.log, ids, n + 1, succeeds);
      EvolvesTransitive(log, h.log, Attempts(h.log, ids, n + 1, succeeds).0);
    }
  }

  // Whatever the server answers, the attempts end with every entry of the task finished, or at
  // the assertion that merged entries fail together; the loop never runs out of attempts.
  lemma {:induction false} AttemptsFinish(log: Log, f: Flight, ids: seq<ActionId>, n: nat, succeeds: nat -> bool)
    requires LogOK(log) && FlightOK(log, f) && f.phase == Attempt(ids, n)
    ensures var (log', completed) := Attempts(log, ids, n, succeeds);
      LogOK(log') && (completed ==> NonePending(log', Current(f).ids))
    decreases MAX_RETRIES - n
  {
    if succeeds(n) {
      SuccessFinishes(log, f, ids, n);
    } else {
      var f1 := f.(phase := Failing(ids, n, 0, false));
      SamePlan(log, f, f1);
      if log[ids[0]].retries + 1 == MAX_RETRIES {
        LimitReached(log, f1, ids, n, 0, false);
      } else {
        AllRetry(log, f1, ids, n, 0);
        AttemptsFinish(HandleFailure(log, ids, 0, false).log, f1.(phase := Attempt(ids, n + 1)), ids, n + 1, succeeds);
      }
    }
  }

  lemma SuccessFinishes(log: Log, f: Flight, ids: seq<ActionId>, n: nat)
    requires LogOK(log) && FlightOK(log, f) && f.phase == Attempt(ids, n)
    ensures LogOK(MarkAllSuccessful(log, ids, 0)) && NonePending(MarkAllSuccessful(log, ids, 0), Current(f).ids)
  {
    assert ids[0..] == ids;
    SamePlan(log, f, f.(phase := Marking(ids, 0)));
    MarkAllEvolves(log, ids, 0);
    MarkAllFinishes(log, f.(phase := Marking(ids, 0)), ids, 0);
  }

  // The new task grows the last one or follows it.
  method AddTask(tasks: seq<Task>, lastTask: Option<Task>, task: Task) returns (tasks': seq<Task>, lastTask': Option<Task>)
    requires lastTask == None ==> tasks == []
    ensures lastTask'.Some?
    ensures tasks' + [lastTask'.value] == Append(if lastTask == None then [] else tasks + [lastTask.value], task)
  {
    if lastTask == None { return [], Some(task); }
    AppendToLast(tasks, lastTask.value, task);
    match TryMerge(lastTask.value, task)
    case None => return tasks + [lastTask.value], Some(task);
    case Some(merged) => return tasks, Some(merged);
  }

  // ----- the service -----

  class SyncbackService {
    var log: Log
    var runningActionIds: set<ActionId>

    constructor (log: Log)
      ensures this.log == log && runningActionIds == {}
    {
      this.log, runningActionIds := log, {};
    }

    // The loop of _batch_log_entries: the tasks so far and the last one, which may still grow.
    method CollectTasks(logEntries: seq<ActionId>, usable: bool, expired: set<ActionId>)
      returns (tasks: seq<Task>, lastTask: Option<Task>, alreadyRunning: bool)
      requires InLog(log, logEntries)
      modifies this`log
      ensures log == if usable then old(log) else Expire(old(log), BeforeRunning(logEntries, runningActionIds), expired)
      ensures !alreadyRunning <==> BeforeRunning(logEntries, runningActionIds) == logEntries
      ensures !alreadyRunning ==> (lastTask.Some? <==> usable && logEntries != [])
      ensures !alreadyRunning && lastTask.Some? ==> tasks + [lastTask.value] == TasksFor(log, logEntries)
    {
      tasks, lastTask := [], None;
      var n := 0;
      while n < |logEntries|
        invariant n <= |logEntries|
        invariant BeforeRunning(logEntries[..n], runningActionIds) == logEntries[..n]
        invariant log == if usable then old(log) else Expire(old(log), logEntries[..n], expired)
        invariant lastTask == None <==> n == 0 || !usable
        invariant lastTask == None ==> tasks == []
        invariant lastTask.Some? ==> tasks + [lastTask.value] == TasksFor(log, logEntries[..n])
      {
        var i := logEntries[n];
        BeforeRunningSnoc(logEntries, runningActionIds, n);
        if i in runningActionIds {
          assert |logEntries[..n]| < |logEntries|;
          return tasks, lastTask, true;
        }
        if !usable {
          ExpireSnoc(old(log), logEntries, n, expired);
          log := ExpireOne(log, i, expired);
        } else {
          TasksForSnoc(log, logEntries, n);
          tasks, lastTask := AddTask(tasks, lastTask, Single(log, i));
        }
        n := n + 1;
      }
      assert logEntries[..n] == logEntries;
      return tasks, lastTask, false;
    }

    // _batch_log_entries
    method BatchLogEntries(logEntries: seq<ActionId>, usable: bool, expired: set<ActionId>) returns (batch: Option<seq<Task>>)
      requires InLog(log, logEntries)
      modifies this
      ensures usable ==> log == old(log)
      ensures !usable ==> log == Expire(old(log), BeforeRunning(logEntries, old(runningActionIds)), expired)
      ensures batch.Some? <==> usable && logEntries != [] && BeforeRunning(logEntries, old(runningActionIds)) == logEntries
      ensures batch.Some? ==> batch.value == TasksFor(log, logEntries) && IdsOf(batch.value) == logEntries
      ensures runningActionIds == old(runningActionIds) + if batch.Some? then (set i | i in logEntries) else {}
    {
      var tasks, lastTask, alreadyRunning := CollectTasks(logEntries, usable, expired);
      if alreadyRunning || lastTask == None { return None; }
      tasks := tasks + [lastTask.value];
      TasksForIsExact(log, logEntries);
      runningActionIds := runningActionIds + set i | i in IdsOf(tasks);
      return Some(tasks);
    }

    // notify_worker_finished; every id is there to be removed.
    method NotifyWorkerFinished(actionIds: seq<ActionId>)
      requires Ascending(actionIds) && forall i :: i in actionIds ==> i in runningActionIds
      modifies this`runningActionIds
      ensures runningActionIds == old(runningActionIds) - set i | i in actionIds
    {
      var n := 0;
      while n < |actionIds|
        invariant n <= |actionIds|
        invariant runningActionIds == old(runningActionIds) - set i | i in actionIds[..n]
      {
        assert actionIds[n] in runningActionIds;    // set.remove raises on a missing element
        runningActionIds := runningActionIds - {actionIds[n]};
        assert actionIds[..n + 1] == actionIds[..n] + [actionIds[n]];
        n := n + 1;
      }
    }

    method MarkSuccess(ids: seq<ActionId>)
      requires InLog(log, ids)
      modifies this`log
      ensures log == MarkAllSuccessful(old(log), ids, 0) && |log| == |old(log)|
      ensures forall i: ActionId :: i < |log| ==>
        log[i] == if i in ids then old(log)[i].(status := Successful) else old(log)[i]
    {
      ghost var before := log;
      var k := 0;
      while k < |ids|
        invariant k <= |ids| && |log| == |old(log)|
        invariant MarkAllSuccessful(log, ids, k) == MarkAllSuccessful(old(log), ids, 0)
      {
        log := MarkSuccessful(log, ids[k]);
        k := k + 1;
      }
      assert ids[0..] == ids;
      forall i: ActionId | i < |log| ensures log[i] == if i in ids then before[i].(status := Successful) else before[i] {
        MarkAllIsExact(before, ids, 0, i);
      }
    }

    method CountFailure(ids: seq<ActionId>) returns (markedAsFailed: bool, asserted: bool)
      requires InLog(log, ids)
      modifies this`log
      ensures Handled(log, markedAsFailed, asserted) == HandleFailure(old(log), ids, 0, false)
    {
      markedAsFailed := false;
      var k := 0;
      while k < |ids|
        invariant k <= |ids| && |log| == |old(log)|
        invariant HandleFailure(log, ids, k, markedAsFailed) == HandleFailure(old(log), ids, 0, false)
      {
        if log[ids[k]].retries + 1 == MAX_RETRIES {
          markedAsFailed := true;
          log := MarkFailed(log, ids[k]);
        } else if markedAsFailed {
          return markedAsFailed, true;
        } else {
          log := CountRetry(log, ids[k]);
        }
        k := k + 1;
      }
      return markedAsFailed, false;
    }

    // execute_with_lock, undisturbed, for the current task of batch f; `completed` is false when
    // the assertion that merged entries fail together raises.
    method ExecuteWithLock(ghost f: Flight, task: Task, succeeds: nat -> bool) returns (completed: bool)
      requires LogOK(log) && FlightOK(log, f) && f.phase.Ready? && f.pos < |f.tasks| && task == Current(f)
      modifies this`log
      ensures LogOK(log) && Evolves(old(log), log)
      ensures completed ==> forall i: ActionId :: i in task.ids ==> !IsPending(log, i)
      // What was pending is successful if one of the calls that are left to its first entry
      // succeeds, and failed otherwise; only differing counters end it at the assertion.
      ensures var ids := StillPending(old(log), task.ids, task.records).0;
        ids != [] ==> InLog(old(log), ids) && |log| == |old(log)| && EndsAs(old(log), ids, 0, succeeds, log, completed)
    {
      var ids := StillPending(log, task.ids, task.records).0;
      BegunFlightOK(log, f);
      StillPendingIsExact(log, task.ids, task.records);
      if ids == [] {
        return true;
      }
      AttemptsEvolve(log, ids, 0, succeeds);
      AttemptsFinish(log, f.(phase := Attempt(ids, 0)), ids, 0, succeeds);
      AttemptsOutcome(log, f, ids, 0, succeeds);
      completed := RunAttempts(ids, succeeds);
    }

    method RunAttempts(ids: seq<ActionId>, succeeds: nat -> bool) returns (completed: bool)
      requires InLog(log, ids)
      modifies this`log
      ensures (log, completed) == Attempts(old(log), ids, 0, succeeds)
    {
      var attempt := 0;
      while attempt < MAX_RETRIES
        invariant attempt <= MAX_RETRIES && |log| == |old(log)|
        invariant Attempts(log, ids, attempt, succeeds) == Attempts(old(log), ids, 0, succeeds)
      {
        if succeeds(attempt) {
          MarkSuccess(ids);
          return true;
        }
        var markedAsFailed, asserted := CountFailure(ids);
        if asserted {
          return false;
        }
        if markedAsFailed {
          return true;
        }
        attempt := attempt + 1;
      }
      return true;
    }
  }
}
