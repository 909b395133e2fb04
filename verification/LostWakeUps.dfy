// Concrete runs, each with one event that is not gentle: the conditions on faults are not empty.
// One account, 1, and processes 0 and 1.
module LostWakeUps {
  import opened Common
  import opened AccountOwnership
  import opened AccountFaults
  import opened SingleOwner
  import opened WakeUp
  import opened WakeUpFaults

  const ENABLED := Row(None, None, true)
  const OWNED := Row(Some(0), None, true)

  // A state in which only process 0 has done anything.
  function Alone(row: Row, proc: Process, queues: map<Host, seq<AccountId>>, shared: seq<AccountId>): State {
    State(map[1 := row], map[], map[0 := proc], queues, shared)
  }

  function Running(phase: Phase): Process { Process(phase, {1}, {1}, None) }

  // A run to state s in which nothing goes wrong but, possibly, the fault given.
  ghost predicate Reached(states: seq<State>, events: seq<Event>, s: State, fault: Option<Fault>) {
    && IsRun(states, events) && states[|events|] == s
    && forall i :: 0 <= i < |events| && events[i].Faulty? ==> Some(events[i].fault) == fault
  }

  predicate Leads(s: State, e: Event, t: State) { Happens(s, e) && After(s, e) == t }

  lemma Go(states: seq<State>, events: seq<Event>, fault: Option<Fault>, s: State, e: Event, t: State)
    returns (states': seq<State>, events': seq<Event>)
    requires Reached(states, events, s, fault) && Leads(s, e, t)
    requires e.Faulty? ==> Some(e.fault) == fault
    ensures Reached(states', events', t, fault)
  {
    states', events' := Extend(states, events, e);
    assert forall i :: 0 <= i < |events| ==> events'[i] == events[i];
  }

  lemma Allow(states: seq<State>, events: seq<Event>, s: State, fault: Fault)
    requires Reached(states, events, s, None)
    ensures Reached(states, events, s, Some(fault))
  {}

  lemma WantedOne(s: State, p: Host)
    requires s.rows.Keys == {1}
    ensures Wanted(s, p) == if WantedBy(s.rows[1], p) then {1} else {}
    ensures Owned(s, p) == if s.rows[1].syncHost == Some(p) then {1} else {}
  {}

  // A poll with nothing to do but skip what is synced already.
  lemma IdlePoll(states: seq<State>, events: seq<Event>, fault: Option<Fault>, monitors: set<AccountId>, queues: map<Host, seq<AccountId>>)
    returns (states': seq<State>, events': seq<Event>)
    requires Reached(states, events, InPoll(PollDue(false), monitors, queues), fault)
    ensures Reached(states', events', InPoll(Waiting, monitors, queues), fault)
  {
    IdlePollLeads(monitors, queues);
    var s0, s1 := InPoll(PollDue(false), monitors, queues), InPoll(Starting({1}, {1}, false), monitors, queues);
    var s2, s3 := InPoll(Starting({1}, {}, false), monitors, queues), InPoll(Stopping({}, false), monitors, queues);
    states', events' := Go(states, events, fault, s0, Normal(StartSnapshot(0)), s1);
    states', events' := Go(states', events', fault, s1, Normal(SkipSyncing(0, 1)), s2);
    states', events' := Go(states', events', fault, s2, Normal(StopSnapshot(0)), s3);
    states', events' := Go(states', events', fault, s3, Normal(FinishPoll(0)), InPoll(Waiting, monitors, queues));
  }

  function InPoll(phase: Phase, monitors: set<AccountId>, queues: map<Host, seq<AccountId>>): State {
    Alone(OWNED, Process(phase, {1}, monitors, None), queues, [])
  }

  lemma IdlePollLeads(monitors: set<AccountId>, queues: map<Host, seq<AccountId>>)
    ensures var s0, s1 := InPoll(PollDue(false), monitors, queues), InPoll(Starting({1}, {1}, false), monitors, queues);
      var s2, s3 := InPoll(Starting({1}, {}, false), monitors, queues), InPoll(Stopping({}, false), monitors, queues);
      && Leads(s0, Normal(StartSnapshot(0)), s1) && Leads(s1, Normal(SkipSyncing(0, 1)), s2)
      && Leads(s2, Normal(StopSnapshot(0)), s3) && Leads(s3, Normal(FinishPoll(0)), InPoll(Waiting, monitors, queues))
  {
    WantedOne(InPoll(PollDue(false), monitors, queues), 0);
    WantedOne(InPoll(Starting({1}, {}, false), monitors, queues), 0);
    assert {1} - {1} == {};
  }

  // ----- the common beginning -----

  const OFFERED := Alone(ENABLED, Process(Offered(1), {}, {}, None), map[], [])
  const CLAIMING := State(map[1 := ENABLED], map[1 := 0], map[0 := Process(ClaimingOffered(1), {}, {1}, None)], map[], [])
  const CLAIMED := Alone(OWNED, Running(PollDue(false)), map[], [])
  const IDLE := Alone(OWNED, Running(Waiting), map[], [])

  const ANNOUNCED := State(map[1 := ENABLED], map[], map[], map[], [1])
  const POLLING := Alone(ENABLED, Process(Starting({}, {}, false), {}, {}, None), map[], [1])

  lemma Announced() returns (states: seq<State>, events: seq<Event>)
    ensures Reached(states, events, POLLING, None)
  {
    var init := State(map[], map[], map[], map[], []);
    states, events := [init], [];
    states, events := Go(states, events, None, init, Normal(OperatorWrite(1, None, true)), ANNOUNCED);
    WantedOne(ANNOUNCED, 0);
    states, events := Go(states, events, None, ANNOUNCED, Normal(StartSnapshot(0)), POLLING);
  }

  // A new account is announced on the shared queue and process 0 takes the offer.
  lemma OfferTaken() returns (states: seq<State>, events: seq<Event>)
    ensures Reached(states, events, OFFERED, None)
  {
    OfferLeads();
    states, events := Announced();
    states, events := Go(states, events, None, POLLING, Normal(StopSnapshot(0)), Listening(Stopping({}, false)));
    states, events := Go(states, events, None, Listening(Stopping({}, false)), Normal(FinishPoll(0)), Listening(Waiting));
    states, events := Go(states, events, None, Listening(Waiting), Normal(ReceiveShared(0)), OFFERED);
  }

  function Listening(phase: Phase): State { Alone(ENABLED, Process(phase, {}, {}, None), map[], [1]) }

  lemma OfferLeads()
    ensures Leads(POLLING, Normal(StopSnapshot(0)), Listening(Stopping({}, false)))
    ensures Leads(Listening(Stopping({}, false)), Normal(FinishPoll(0)), Listening(Waiting))
    ensures Leads(Listening(Waiting), Normal(ReceiveShared(0)), OFFERED)
  {
    WantedOne(POLLING, 0);
    assert Owned(POLLING, 0) - {} == {};
  }

  lemma ClaimBegun() returns (states: seq<State>, events: seq<Event>)
    ensures Reached(states, events, CLAIMING, None)
  {
    states, events := OfferTaken();
    assert {} + {1} == {1};
    states, events := Go(states, events, None, OFFERED, Normal(TryOffered(0)), CLAIMING);
  }

  lemma Claimed() returns (states: seq<State>, events: seq<Event>)
    ensures Reached(states, events, CLAIMED, None)
  {
    states, events := ClaimBegun();
    assert map[1 := 0] - {1} == map[] && {} + {1} == {1};
    states, events := Go(states, events, None, CLAIMING, Normal(CommitOffered(0)), CLAIMED);
  }

  lemma ClaimedAndIdle() returns (states: seq<State>, events: seq<Event>)
    ensures Reached(states, events, IDLE, None)
  {
    states, events := Claimed();
    states, events := IdlePoll(states, events, None, {1}, map[]);
  }

  const DISABLED := Row(Some(0), None, false)
  const STOPPING := Alone(DISABLED, Process(Releasing({}, true, 1), {1}, {}, None), map[0 := []], [])

  lemma StopCalledFor() returns (states: seq<State>, events: seq<Event>)
    ensures Reached(states, events, ToStop(PollDue(true), []), None)
  {
    StopLeads();
    states, events := ClaimedAndIdle();
    states, events := Go(states, events, None, IDLE, Normal(OperatorWrite(1, None, false)), ToStop(Waiting, [1]));
    states, events := Go(states, events, None, ToStop(Waiting, [1]), Normal(ReceivePrivate(0)), ToStop(Flushing, []));
    states, events := Go(states, events, None, ToStop(Flushing, []), Normal(FlushDone(0)), ToStop(PollDue(true), []));
  }

  function ToStop(phase: Phase, queue: seq<AccountId>): State { Alone(DISABLED, Running(phase), map[0 := queue], []) }

  lemma StopLeads()
    ensures Leads(IDLE, Normal(OperatorWrite(1, None, false)), ToStop(Waiting, [1]))
    ensures Leads(ToStop(Waiting, [1]), Normal(ReceivePrivate(0)), ToStop(Flushing, []))
    ensures Leads(ToStop(Flushing, []), Normal(FlushDone(0)), ToStop(PollDue(true), []))
  {
    assert [] + [1] == [1];
  }

  // The account is disabled, and process 0 has killed its monitors and is about to release it.
  lemma StopBegun() returns (states: seq<State>, events: seq<Event>)
    ensures Reached(states, events, STOPPING, None)
  {
    KillLeads();
    states, events := StopCalledFor();
    var s4, s5 := ToStop(Starting({}, {}, true), []), ToStop(Stopping({1}, true), []);
    states, events := Go(states, events, None, ToStop(PollDue(true), []), Normal(StartSnapshot(0)), s4);
    states, events := Go(states, events, None, s4, Normal(StopSnapshot(0)), s5);
    states, events := Go(states, events, None, s5, Normal(KillMonitors(0, 1)), STOPPING);
  }

  lemma KillLeads()
    ensures var s4, s5 := ToStop(Starting({}, {}, true), []), ToStop(Stopping({1}, true), []);
      && Leads(ToStop(PollDue(true), []), Normal(StartSnapshot(0)), s4)
      && Leads(s4, Normal(StopSnapshot(0)), s5) && Leads(s5, Normal(KillMonitors(0, 1)), STOPPING)
  {
    WantedOne(ToStop(PollDue(true), []), 0);
    WantedOne(ToStop(Starting({}, {}, true), []), 0);
    assert {1} - {} == {1} && {1} - {1} == {};
  }

  // ----- wake-ups that are lost -----

  // After some run without faults this fault, or this step, leaves an account asleep.
  ghost predicate Loses(f: Fault) {
    exists states, events, s :: Reached(states, events, s, None) && FaultEnabled(s, f) && !Awake(AfterFault(s, f))
  }

  lemma Asleep(s: State)
    requires s.rows == map[1 := ENABLED] && s.sharedQueue == []
    requires forall p :: !At(s, p).phase.Offered? && !At(s, p).phase.ClaimingOffered?
    ensures !Awake(s)
  {
    assert !AwakeAt(s, 1);
  }

  // A crash between taking the offer and claiming the account.
  lemma CrashInHandLosesWakeUp()
    ensures exists states, events, s :: Reached(states, events, s, None) && !Awake(Do(s, Crash(0)))
  {
    var states, events := OfferTaken();
    Asleep(Do(OFFERED, Crash(0)));
  }

  // The same without a crash, when the start of the offered account raises.
  lemma DroppedOfferLosesWakeUp()
    ensures Loses(OfferDropped(0))
  {
    var states, events := OfferTaken();
    Asleep(AfterFault(OFFERED, OfferDropped(0)));
  }

  // An account is disabled by a session that read the row before process 0 claimed it: the event
  // should tell process 0 to stop, and tells nobody. The same if it is lost on the way.
  lemma StaleWriteLosesWakeUp()
    ensures Loses(StaleWrite(1, ENABLED, None, Some(false))) && Loses(EventLost(1, None, false))
  {
    var states, events := ClaimedAndIdle();
    var s := AfterFault(IDLE, StaleWrite(1, ENABLED, None, Some(false)));
    var t := AfterFault(IDLE, EventLost(1, None, false));
    assert s.rows[1] == DISABLED && t.rows[1] == DISABLED;
    assert !AwakeAt(s, 1) && !AwakeAt(t, 1);
  }

  // An account is enabled again while process 0 releases it, and the release tells nobody, as the
  // row did not ask for anybody when the process read it.
  lemma MisroutedReleaseLosesWakeUp()
    ensures Loses(MisroutedRelease(0, RouteFor(DISABLED.(syncHost := None))))
  {
    var states, events := StopBegun();
    var s := STOPPING.(rows := map[1 := OWNED]);
    states, events := Go(states, events, None, STOPPING, Normal(OperatorWrite(1, None, true)), s);
    Asleep(AfterFault(s, MisroutedRelease(0, Nobody)));
  }

  // A restarted process meets a database error when it starts an account it owns.
  lemma RefusedStartLosesWakeUp()
    ensures Loses(StartRefused(0, 1))
  {
    var states, events := Claimed();
    var s1 := Alone(OWNED, FRESH, map[], []);
    states, events := Go(states, events, None, CLAIMED, Normal(Crash(0)), s1);
    WantedOne(s1, 0);
    var s2 := Alone(OWNED, FRESH.(phase := Starting({1}, {1}, false)), map[], []);
    states, events := Go(states, events, None, s1, Normal(StartSnapshot(0)), s2);
    assert !AwakeAt(AfterFault(s2, StartRefused(0, 1)), 1);
  }

  // ----- accounts that are never started again -----

  // After some run with this fault alone, the protocol is at rest in the wrong configuration.
  ghost predicate Forgets(f: Fault) {
    exists states, events, s :: Reached(states, events, s, Some(f)) && AtRest(s, 1) && !Settled(s, 1)
  }

  lemma ForgottenAtRest(s: State, queues: map<Host, seq<AccountId>>)
    requires s == Alone(OWNED, Process(Waiting, {1}, {}, None), queues, []) && 1 !in Queue(s, 0)
    ensures AtRest(s, 1) && !Settled(s, 1)
  {}

  // A failed stop of an account that is then enabled again.
  lemma FailedStopForgets()
    ensures Forgets(StopFails(0))
  {
    var f := StopFails(0);
    var states, events := StopBegun();
    Allow(states, events, STOPPING, f);
    var s1 := Alone(DISABLED, Process(Stopping({}, true), {1}, {}, None), map[0 := []], []);
    states, events := Go(states, events, Some(f), STOPPING, Faulty(f), s1);
    var s2 := Alone(OWNED, Process(Stopping({}, true), {1}, {}, None), map[0 := []], []);
    states, events := Go(states, events, Some(f), s1, Normal(OperatorWrite(1, None, true)), s2);
    var s3 := Alone(OWNED, Process(PollDue(false), {1}, {}, None), map[0 := []], []);
    states, events := Go(states, events, Some(f), s2, Normal(FinishPoll(0)), s3);
    states, events := IdlePoll(states, events, Some(f), {}, map[0 := []]);
    ForgottenAtRest(Alone(OWNED, Process(Waiting, {1}, {}, None), map[0 := []], []), map[0 := []]);
  }

  lemma FailedUnassignForgets()
    ensures Forgets(UnassignFails(0))
  {
    var f := UnassignFails(0);
    var states, events := ClaimedAndIdle();
    Allow(states, events, IDLE, f);
    assert {1} - {1} == {};
    var s1 := Alone(OWNED, Process(Waiting, {1}, {}, Some(1)), map[], []);
    states, events := Go(states, events, Some(f), IDLE, Normal(UnassignKill(0, 1)), s1);
    var s2 := Alone(OWNED, Process(Waiting, {1}, {}, None), map[], []);
    states, events := Go(states, events, Some(f), s1, Faulty(f), s2);
    ForgottenAtRest(s2, map[]);
  }

  // ----- two processes that sync one account -----

  // After some run with this fault alone, processes 0 and 1 both run monitors of account 1.
  ghost predicate Doubles(f: Fault) {
    exists states, events, s :: Reached(states, events, s, Some(f)) && 1 in At(s, 0).monitors && 1 in At(s, 1).monitors
  }

  // The account is moved to process 1 while process 0 has monitors that its row does not show.
  lemma SecondClaim(states: seq<State>, events: seq<Event>, f: Fault, shared: seq<AccountId>)
    requires Reached(states, events, Alone(ENABLED, Running(PollDue(false)), map[], shared), Some(f))
    ensures Doubles(f)
  {
    var s0 := Alone(ENABLED, Running(PollDue(false)), map[], shared);
    assert [] + [1] == [1];
    var row := Row(None, Some(1), true);
    var s1 := Alone(row, Running(PollDue(false)), map[1 := [1]], shared);
    var states', events' := Go(states, events, Some(f), s0, Normal(OperatorWrite(1, Some(1), true)), s1);
    WantedOne(s1, 1);
    var second := FRESH.(phase := Starting({1}, {1}, false));
    var s2 := s1.(procs := map[0 := Running(PollDue(false)), 1 := second]);
    states', events' := Go(states', events', Some(f), s1, Normal(StartSnapshot(1)), s2);
    var s3 := Do(s2, TryStart(1, 1));
    states', events' := Go(states', events', Some(f), s2, Normal(TryStart(1, 1)), s3);
    assert 1 in At(s3, 0).monitors && 1 in At(s3, 1).monitors;
  }

  lemma FailedCommitDoubles()
    ensures Doubles(CommitFails(0))
  {
    var f := CommitFails(0);
    var states, events := ClaimBegun();
    Allow(states, events, CLAIMING, f);
    assert map[1 := 0] - {1} == map[] && {} + {1} == {1};
    states, events := Go(states, events, Some(f), CLAIMING, Faulty(f), Alone(ENABLED, Running(PollDue(false)), map[], []));
    SecondClaim(states, events, f, []);
  }

  lemma ForcedReleaseDoubles()
    ensures Doubles(ForcedRelease(1))
  {
    var f := ForcedRelease(1);
    var states, events := Claimed();
    Allow(states, events, CLAIMED, f);
    states, events := Go(states, events, Some(f), CLAIMED, Faulty(f), Alone(ENABLED, Running(PollDue(false)), map[], [1]));
    SecondClaim(states, events, f, [1]);
  }

  // A start that raises with a monitor running: at the next poll the account is started again, over
  // the entry of the running monitor.
  lemma FailedStartLosesMonitor()
    ensures exists states, events, s ::
      Reached(states, events, s, Some(StartFails(0, true))) && Enabled(s, TryStart(0, 1)) && CanStart(s, 0, 1) && 1 in At(s, 0).monitors
  {
    var f := StartFails(0, true);
    var states, events := ClaimBegun();
    Allow(states, events, CLAIMING, f);
    assert map[1 := 0] - {1} == map[] && {} + {1} == {1};
    var s1 := Alone(OWNED, Process(PollDue(false), {}, {1}, None), map[], []);
    states, events := Go(states, events, Some(f), CLAIMING, Faulty(f), s1);
    WantedOne(s1, 0);
    var s2 := Alone(OWNED, Process(Starting({1}, {1}, false), {}, {1}, None), map[], []);
    states, events := Go(states, events, Some(f), s1, Normal(StartSnapshot(0)), s2);
    assert Enabled(s2, TryStart(0, 1)) && CanStart(s2, 0, 1) && 1 in At(s2, 0).monitors;
  }
}
