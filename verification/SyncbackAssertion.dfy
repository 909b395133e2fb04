// A run in which a batch that is cut off makes the assertion that merged entries fail together fire.
module SyncbackAssertion {
  import opened SyncbackBatching
  import opened SyncbackMachine

  const CHANGE := ChangeLabels(["a"], [])
  const TASK := Task(CHANGE, [0, 1], [0, 1])

  // Two pending label changes of account 0 on two messages.
  function Two(r0: nat, r1: nat): Log {
    [Entry(0, CHANGE, 0, Pending, r0), Entry(0, CHANGE, 1, Pending, r1)]
  }

  function Flying(r0: nat, r1: nat, t: Ticket, queue: seq<Ticket>, phase: Phase): State {
    State(Two(r0, r1), {0, 1}, queue, map[t := Flight(0, [TASK], 0, phase)], t + 1)
  }

  ghost predicate Reached(states: seq<State>, steps: seq<Step>, s: State) {
    IsRun(states, steps) && states[|steps|] == s
  }

  predicate Leads(s: State, step: Step, t: State) { Enabled(s, step) && Do(s, step) == t }

  lemma Go(states: seq<State>, steps: seq<Step>, s: State, step: Step, t: State) returns (states': seq<State>, steps': seq<Step>)
    requires Reached(states, steps, s) && Leads(s, step, t)
    ensures Reached(states', steps', t)
  {
    states', steps' := states + [t], steps + [step];
    forall i | 0 <= i < |steps'|
      ensures Enabled(states'[i], steps'[i]) && states'[i + 1] == Do(states'[i], steps'[i])
    {
      if i < |steps| { assert steps'[i] == steps[i] && states'[i] == states[i] && states'[i + 1] == states[i + 1]; }
    }
  }

  // ----- both entries go into one task -----

  lemma BothPending(r0: nat, r1: nat)
    ensures NextPending(Two(r0, r1), 0, 10) == [0, 1]
  {
    var ids := PendingOf(Two(r0, r1), 0);
    assert IsPendingOf(Two(r0, r1), 0, 0) && IsPendingOf(Two(r0, r1), 0, 1);
    assert forall i: ActionId :: i in ids <==> i == 0 || i == 1;
    JustTwo(ids);
  }

  lemma JustTwo(ids: seq<ActionId>)
    requires Ascending(ids) && forall i: ActionId :: i in ids <==> i == 0 || i == 1
    ensures ids == [0, 1]
  {
    assert 0 in ids && 1 in ids;
    assert ids[|ids| - 1] in ids;
    AtLeast(ids, |ids| - 1);
    var i, j :| 0 <= i < |ids| && ids[i] == 0 && 0 <= j < |ids| && ids[j] == 1;
    assert i < j;
  }

  lemma {:induction false} AtLeast(ids: seq<ActionId>, k: nat)
    requires Ascending(ids) && k < |ids|
    ensures ids[k] >= k
  {
    if k > 0 { AtLeast(ids, k - 1); }
  }

  lemma OneTask(r0: nat, r1: nat)
    ensures TasksFor(Two(r0, r1), [0, 1]) == [TASK] && IdsOf([TASK]) == [0, 1]
  {
    var log := Two(r0, r1);
    assert [0, 1][..1] == [0] && [0][..0] == [];
    assert TasksFor(log, [0]) == [Task(CHANGE, [0], [0])];
    assert [Task(CHANGE, [0], [0])][..0] == [] && [TASK][..0] == [];
    assert [0] + [1] == [0, 1];
    assert TryMerge(Task(CHANGE, [0], [0]), Task(CHANGE, [1], [1])).value == TASK;
  }

  lemma ProcessLeads(r0: nat, r1: nat, t: Ticket)
    ensures Leads(State(Two(r0, r1), {}, [], map[], t), Process(0, 10, true, {}), Flying(r0, r1, t, [t], Queued))
  {
    BothPending(r0, r1);
    OneTask(r0, r1);
    NoneRunning();
    var s := State(Two(r0, r1), {}, [], map[], t);
    assert DoProcess(s, 0, 10, true, {}).running == {0, 1};
    assert DoProcess(s, 0, 10, true, {}).queue == [t];
  }

  lemma NoneRunning()
    ensures BeforeRunning([0, 1], {}) == [0, 1]
    ensures {} + (set i | i in IdsOf([TASK])) == {0, 1}
  {
    var ids: seq<ActionId> := [0, 1];
    assert ids[1..] == [1] && ids[1..][1..] == [];
    assert BeforeRunning(ids[1..], {}) == [1];
    OneTask(0, 0);
  }

  lemma BeginLeads(r0: nat, r1: nat, t: Ticket)
    ensures Leads(Flying(r0, r1, t, [t], Queued), TakeJob, Flying(r0, r1, t, [], WaitingForSemaphore))
    ensures Leads(Flying(r0, r1, t, [], WaitingForSemaphore), Acquire(t), Flying(r0, r1, t, [], Ready))
  {}

  lemma AttemptBegins(r0: nat, r1: nat, t: Ticket)
    ensures Leads(Flying(r0, r1, t, [], Ready), BeginTask(t), Flying(r0, r1, t, [], Attempt([0, 1], 0)))
  {
    StillPendingIsExact(Two(r0, r1), TASK.ids, TASK.records);
    JustTwo(StillPending(Two(r0, r1), TASK.ids, TASK.records).0);
  }

  // From a quiet service to the first call of a batch with both entries.
  lemma Launched(states: seq<State>, steps: seq<Step>, r0: nat, r1: nat, t: Ticket) returns (states': seq<State>, steps': seq<Step>)
    requires Reached(states, steps, State(Two(r0, r1), {}, [], map[], t))
    ensures Reached(states', steps', Flying(r0, r1, t, [], Attempt([0, 1], 0)))
  {
    ProcessLeads(r0, r1, t);
    BeginLeads(r0, r1, t);
    AttemptBegins(r0, r1, t);
    states', steps' := Go(states, steps, State(Two(r0, r1), {}, [], map[], t), Process(0, 10, true, {}), Flying(r0, r1, t, [t], Queued));
    states', steps' := Go(states', steps', Flying(r0, r1, t, [t], Queued), TakeJob, Flying(r0, r1, t, [], WaitingForSemaphore));
    states', steps' := Go(states', steps', Flying(r0, r1, t, [], WaitingForSemaphore), Acquire(t), Flying(r0, r1, t, [], Ready));
    states', steps' := Go(states', steps', Flying(r0, r1, t, [], Ready), BeginTask(t), Flying(r0, r1, t, [], Attempt([0, 1], 0)));
  }

  lemma ScheduleLeads()
    ensures Leads(State([], {}, [], map[], 0), Schedule(0, CHANGE, 0), State([Entry(0, CHANGE, 0, Pending, 0)], {}, [], map[], 0))
    ensures Leads(State([Entry(0, CHANGE, 0, Pending, 0)], {}, [], map[], 0), Schedule(0, CHANGE, 1), State(Two(0, 0), {}, [], map[], 0))
  {}

  lemma FirstFailLeads()
    ensures Leads(Flying(0, 0, 0, [], Attempt([0, 1], 0)), Send(0, false), Flying(0, 0, 0, [], Failing([0, 1], 0, 0, false)))
    ensures Leads(Flying(0, 0, 0, [], Failing([0, 1], 0, 0, false)), FailOne(0), Flying(1, 0, 0, [], Failing([0, 1], 0, 1, false)))
  {
    assert Two(0, 0)[0 := Entry(0, CHANGE, 0, Pending, 1)] == Two(1, 0);
  }

  lemma CutLeads()
    ensures Leads(Flying(1, 0, 0, [], Failing([0, 1], 0, 1, false)), CutOff(0), State(Two(1, 0), {}, [], map[], 1))
  {
    OneTask(1, 0);
    var s := Flying(1, 0, 0, [], Failing([0, 1], 0, 1, false));
    assert Land(s, 0).flights == map[];
    assert Land(s, 0).running == {};
  }

  // The batch is cut off after the first entry of a failed call was counted.
  lemma CutOffBetween() returns (states: seq<State>, steps: seq<Step>)
    ensures Reached(states, steps, Flying(1, 0, 1, [], Attempt([0, 1], 0)))
  {
    var init := State([], {}, [], map[], 0);
    var one := State([Entry(0, CHANGE, 0, Pending, 0)], {}, [], map[], 0);
    ScheduleLeads();
    FirstFailLeads();
    CutLeads();
    states, steps := [init], [];
    states, steps := Go(states, steps, init, Schedule(0, CHANGE, 0), one);
    states, steps := Go(states, steps, one, Schedule(0, CHANGE, 1), State(Two(0, 0), {}, [], map[], 0));
    states, steps := Launched(states, steps, 0, 0, 0);
    var s0, s1 := Flying(0, 0, 0, [], Failing([0, 1], 0, 0, false)), Flying(1, 0, 0, [], Failing([0, 1], 0, 1, false));
    states, steps := Go(states, steps, Flying(0, 0, 0, [], Attempt([0, 1], 0)), Send(0, false), s0);
    states, steps := Go(states, steps, s0, FailOne(0), s1);
    states, steps := Go(states, steps, s1, CutOff(0), State(Two(1, 0), {}, [], map[], 1));
    states, steps := Launched(states, steps, 1, 0, 1);
  }

  // ----- the counters stay one apart -----

  lemma AttemptLeads(n: nat)
    requires n + 2 < MAX_RETRIES
    ensures Leads(Flying(n + 1, n, 1, [], Attempt([0, 1], n)), Send(1, false), Flying(n + 1, n, 1, [], Failing([0, 1], n, 0, false)))
    ensures Leads(Flying(n + 1, n, 1, [], Failing([0, 1], n, 0, false)), FailOne(1), Flying(n + 2, n, 1, [], Failing([0, 1], n, 1, false)))
    ensures Leads(Flying(n + 2, n, 1, [], Failing([0, 1], n, 1, false)), FailOne(1), Flying(n + 2, n + 1, 1, [], Attempt([0, 1], n + 1)))
  {
    assert Two(n + 1, n)[0 := Entry(0, CHANGE, 0, Pending, n + 2)] == Two(n + 2, n);
    assert Two(n + 2, n)[1 := Entry(0, CHANGE, 1, Pending, n + 1)] == Two(n + 2, n + 1);
  }

  lemma {:induction false} Attempted(n: nat) returns (states: seq<State>, steps: seq<Step>)
    requires n + 2 <= MAX_RETRIES
    ensures Reached(states, steps, Flying(n + 1, n, 1, [], Attempt([0, 1], n)))
  {
    if n == 0 {
      states, steps := CutOffBetween();
    } else {
      states, steps := Attempted(n - 1);
      AttemptLeads(n - 1);
      var s0, s1 := Flying(n, n - 1, 1, [], Failing([0, 1], n - 1, 0, false)), Flying(n + 1, n - 1, 1, [], Failing([0, 1], n - 1, 1, false));
      states, steps := Go(states, steps, Flying(n, n - 1, 1, [], Attempt([0, 1], n - 1)), Send(1, false), s0);
      states, steps := Go(states, steps, s0, FailOne(1), s1);
      states, steps := Go(states, steps, s1, FailOne(1), Flying(n + 1, n, 1, [], Attempt([0, 1], n)));
    }
  }

  // After one cut-off the first entry fails for the 20th time in a call in which the second one
  // fails for the 19th, and the assertion fires.
  lemma CutOffCanFireAssertion()
    ensures exists states, steps, s, t :: Reached(states, steps, s) && Enabled(s, FailOne(t)) && AssertionFires(s, t)
  {
    var n := MAX_RETRIES - 2;
    var states, steps := Attempted(n);
    var s0 := Flying(n + 1, n, 1, [], Failing([0, 1], n, 0, false));
    states, steps := Go(states, steps, Flying(n + 1, n, 1, [], Attempt([0, 1], n)), Send(1, false), s0);
    var s1 := Do(s0, FailOne(1));
    states, steps := Go(states, steps, s0, FailOne(1), s1);
    assert s1.flights[1].phase == Failing([0, 1], n, 1, true) && s1.log[1].retries == n;
    assert AssertionFires(s1, 1);
  }
}
