// Which faults lose a wake-up, exactly; and, in every run without such a fault, that none is lost.
module WakeUpFaults {
  import opened Common
  import opened AccountOwnership
  import opened AccountFaults
  import opened SingleOwner
  import opened WakeUp

  // The main loop of the process will still come to stop account a.
  predicate LoopStops(s: State, p: Host, a: AccountId) {
    var phase := At(s, p).phase;
    || a in Queue(s, p)
    || SnapshotDue(phase)
    || (InStartLoop(phase) && a !in phase.start)
    || (InStopLoop(phase) && a in phase.todo)
    || (phase.Releasing? && phase.acc == a)
  }

  // Account a is owned by p, which has to stop or restart it.
  predicate NeedsOwner(s: State, p: Host, a: AccountId) {
    a in s.rows && s.rows[a].syncHost == Some(p) && (MustGiveUp(s.rows[a]) || a !in At(s, p).syncing)
  }

  // After a commit of `row` that told `told`, whoever has to act is told or has it before it anyway.
  ghost predicate TellsEnough(s: State, a: AccountId, row: Row, told: Route) {
    var route := RouteFor(row);
    || route.Nobody?
    || told == route
    || (route.Shared? && OfferPending(s, a))
    || (route.Private? && row.syncHost == None && StartPending(s, route.host, a))
    || (route.Private? && row.syncHost.Some? && StopPending(s, route.host, a))
  }

  // The faults that lose no wake-up.
  ghost predicate KeepsAwake(s: State, f: Fault)
    requires FaultEnabled(s, f)
  {
    match f
    case StartRefused(p, a) =>
      || !(a in s.rows && (s.rows[a].syncHost == Some(p) || RouteFor(s.rows[a]) == Private(p)))
      || At(s, p).phase.again || a in Queue(s, p)
    case StartFails(p, _) =>
      At(s, p).phase.ClaimingOffered? || At(s, p).phase.again || Claim(At(s, p)).value in Queue(s, p)
    case OfferDropped(p) => !LastOffer(s, p, At(s, p).phase.acc)
    case StopFails(p) =>
      NeedsOwner(s, p, At(s, p).phase.acc) ==> At(s, p).phase.again || At(s, p).phase.acc in Queue(s, p)
    case UnassignFails(p) =>
      var a := At(s, p).unassigning.value;
      a in s.rows && s.rows[a].syncHost == Some(p) ==>
        && (MustGiveUp(s.rows[a]) ==> LoopStops(s, p, a))
        && (a !in At(s, p).syncing ==> StartPending(s, p, a) || LoopStops(s, p, a))
    case StaleWrite(a, copy, desired, shouldRun) =>
      TellsEnough(s, a, StaleRow(s.rows[a], copy, desired, shouldRun), StaleRoute(copy, desired, shouldRun))
    case EventLost(a, desired, shouldRun) =>
      TellsEnough(s, a, s.rows[a].(desired := desired, shouldRun := shouldRun), Nobody)
    case MisroutedRelease(p, told) =>
      TellsEnough(s, At(s, p).phase.acc, s.rows[At(s, p).phase.acc].(syncHost := None), told)
    case _ => true
  }

  // ----- commits that tell the wrong process -----

  lemma AwakeTelling(s: State, b: AccountId, row: Row, told: Route, a: AccountId)
    requires Awake(s) && b in s.rows && (row.syncHost == None || row.syncHost == s.rows[b].syncHost)
    ensures a != b ==> AwakeAt(CommitTelling(s, b, row, told), a)
    ensures AwakeAt(CommitTelling(s, b, row, told), b) <==> TellsEnough(s, b, row, told)
  {
    var s' := CommitTelling(s, b, row, told);
    TellingFrame(s, b, row, told);
    assert AwakeAt(s, a) && AwakeAt(s, b);
    forall h, x ensures x in Queue(s', h) <==> x in Queue(s, h) || (x == b && told == Private(h)) {}
    assert forall x :: x in s'.sharedQueue <==> x in s.sharedQueue || (x == b && told == Shared);
    forall q, x ensures HoldsOffer(s', q, x) == HoldsOffer(s, q, x) {}
    if a != b && a in s.rows && RouteFor(s.rows[a]).Shared? { OffersKept(s, s', 0, a); }
  }

  lemma AwakeMisrouted(s: State, p: Host, told: Route, a: AccountId)
    requires Safe(s) && Awake(s) && FaultEnabled(s, MisroutedRelease(p, told))
    ensures var b := At(s, p).phase.acc;
      && (a != b ==> AwakeAt(AfterFault(s, MisroutedRelease(p, told)), a))
      && (AwakeAt(AfterFault(s, MisroutedRelease(p, told)), b) <==> KeepsAwake(s, MisroutedRelease(p, told)))
  {
    var b, row := At(s, p).phase.acc, s.rows[At(s, p).phase.acc].(syncHost := None);
    var s1, s' := CommitTelling(s, b, row, told), AfterFault(s, MisroutedRelease(p, told));
    TellingFrame(s, b, row, told);
    AwakeTelling(s, b, row, told, a);
    if a != b { AwakeStopped(s1, p, b, At(s', p), a); }
    forall h ensures StartPending(s', h, b) == StartPending(s1, h, b) && HoldsOffer(s', h, b) == HoldsOffer(s1, h, b) {}
  }

  // ----- faults of a process -----

  // A start loop goes on without account b.
  lemma AwakeStartRefused(s: State, p: Host, b: AccountId, a: AccountId)
    requires Safe(s) && Awake(s) && FaultEnabled(s, StartRefused(p, b))
    ensures a != b ==> AwakeAt(AfterFault(s, StartRefused(p, b)), a)
    ensures AwakeAt(AfterFault(s, StartRefused(p, b)), b) <==> KeepsAwake(s, StartRefused(p, b))
  {
    var s' := AfterFault(s, StartRefused(p, b));
    assert AwakeAt(s, a) && AwakeAt(s, b) && SafeAt(s, p, b);
    if a in s.rows && RouteFor(s.rows[a]).Shared? { OffersKept(s, s', p, a); }
    if b in s.rows && RouteFor(s.rows[b]).Shared? { OffersKept(s, s', p, b); }
  }

  lemma AwakeStartFails(s: State, p: Host, started: bool, a: AccountId)
    requires Safe(s) && Awake(s) && FaultEnabled(s, StartFails(p, started))
    ensures var b := Claim(At(s, p)).value;
      && (a != b ==> AwakeAt(AfterFault(s, StartFails(p, started)), a))
      && (AwakeAt(AfterFault(s, StartFails(p, started)), b) <==> KeepsAwake(s, StartFails(p, started)))
  {
    var b, s' := Claim(At(s, p)).value, AfterFault(s, StartFails(p, started));
    var row := s.rows[b].(syncHost := Some(p));
    assert AwakeAt(s, a) && SafeAt(s, p, a) && SafeAt(s, p, b);
    CommitFrame(s, b, row);
    assert RouteFor(row) == Nobody;
    assert s'.privateQueues == s.privateQueues && s'.sharedQueue == s.sharedQueue && s'.rows == s.rows[b := row];
    if a != b && a in s.rows && RouteFor(s.rows[a]).Shared? { OffersKept(s, s', p, a); }
  }

  lemma AwakeCommitFails(s: State, p: Host, a: AccountId)
    requires Safe(s) && Awake(s) && FaultEnabled(s, CommitFails(p)) && Harmless(s, CommitFails(p))
    ensures AwakeAt(AfterFault(s, CommitFails(p)), a)
  {
    var s' := AfterFault(s, CommitFails(p));
    assert AwakeAt(s, a) && SafeAt(s, p, a) && SafeAt(s, p, Claim(At(s, p)).value);
    if a in s.rows && RouteFor(s.rows[a]).Shared? { OffersKept(s, s', p, a); }
  }

  lemma AwakeOfferDropped(s: State, p: Host, a: AccountId)
    requires Safe(s) && Awake(s) && FaultEnabled(s, OfferDropped(p))
    ensures AwakeAt(AfterFault(s, OfferDropped(p)), a) <==> !LastOffer(s, p, a)
  {
    var s' := AfterFault(s, OfferDropped(p));
    assert AwakeAt(s, a);
    if a in s.rows && RouteFor(s.rows[a]).Shared? { OffersWithout(s, s', p, a); }
  }

  lemma AwakeStopFails(s: State, p: Host, a: AccountId)
    requires Safe(s) && Awake(s) && FaultEnabled(s, StopFails(p))
    ensures var b := At(s, p).phase.acc;
      && (a != b ==> AwakeAt(AfterFault(s, StopFails(p)), a))
      && (AwakeAt(AfterFault(s, StopFails(p)), b) <==> KeepsAwake(s, StopFails(p)))
  {
    var b, s' := At(s, p).phase.acc, AfterFault(s, StopFails(p));
    assert AwakeAt(s, a) && AwakeAt(s, b) && SafeAt(s, p, b);
    if a in s.rows && RouteFor(s.rows[a]).Shared? { OffersKept(s, s', p, a); }
    if b in s.rows && RouteFor(s.rows[b]).Shared? { OffersKept(s, s', p, b); }
  }

  lemma AwakeUnassignFails(s: State, p: Host, a: AccountId)
    requires Safe(s) && Awake(s) && FaultEnabled(s, UnassignFails(p))
    ensures var b := At(s, p).unassigning.value;
      && (a != b ==> AwakeAt(AfterFault(s, UnassignFails(p)), a))
      && (AwakeAt(AfterFault(s, UnassignFails(p)), b) <==> KeepsAwake(s, UnassignFails(p)))
  {
    var b, s' := At(s, p).unassigning.value, AfterFault(s, UnassignFails(p));
    assert AwakeAt(s, a) && AwakeAt(s, b) && SafeAt(s, p, b);
    if a in s.rows && RouteFor(s.rows[a]).Shared? { OffersKept(s, s', p, a); }
    if b in s.rows && RouteFor(s.rows[b]).Shared? { OffersKept(s, s', p, b); }
  }

  lemma AwakePollAborted(s: State, p: Host, a: AccountId)
    requires Safe(s) && Awake(s) && FaultEnabled(s, PollAborted(p))
    ensures AwakeAt(AfterFault(s, PollAborted(p)), a)
  {
    assert AwakeAt(s, a) && SafeAt(s, p, a);
    if a in s.rows && RouteFor(s.rows[a]).Shared? { OffersKept(s, AfterFault(s, PollAborted(p)), p, a); }
  }

  // The account a fault is about.
  function Subject(s: State, f: Fault): AccountId
    requires FaultEnabled(s, f)
  {
    match f
    case StartRefused(_, a) => a
    case StartFails(p, _) => Claim(At(s, p)).value
    case CommitFails(p) => Claim(At(s, p)).value
    case OfferDropped(p) => At(s, p).phase.acc
    case StopFails(p) => At(s, p).phase.acc
    case UnassignFails(p) => At(s, p).unassigning.value
    case PollAborted(_) => 0
    case StaleWrite(a, _, _, _) => a
    case MisroutedRelease(p, _) => At(s, p).phase.acc
    case EventLost(a, _, _) => a
    case ForcedRelease(a) => a
  }

  lemma AwakeFaultAt(s: State, f: Fault, a: AccountId)
    requires Safe(s) && Awake(s) && FaultEnabled(s, f) && Harmless(s, f)
    ensures a != Subject(s, f) ==> AwakeAt(AfterFault(s, f), a)
    ensures AwakeAt(AfterFault(s, f), Subject(s, f)) <==> KeepsAwake(s, f)
  {
    var b := Subject(s, f);
    match f
    case StartRefused(p, _) => AwakeStartRefused(s, p, b, a);
    case StartFails(p, started) => AwakeStartFails(s, p, started, a);
    case CommitFails(p) => AwakeCommitFails(s, p, a); AwakeCommitFails(s, p, b);
    case OfferDropped(p) => AwakeOfferDropped(s, p, a); AwakeOfferDropped(s, p, b);
    case StopFails(p) => AwakeStopFails(s, p, a);
    case UnassignFails(p) => AwakeUnassignFails(s, p, a);
    case PollAborted(p) => AwakePollAborted(s, p, a); AwakePollAborted(s, p, b);
    case StaleWrite(_, copy, desired, shouldRun) =>
      AwakeTelling(s, b, StaleRow(s.rows[b], copy, desired, shouldRun), StaleRoute(copy, desired, shouldRun), a);
    case EventLost(_, desired, shouldRun) =>
      AwakeTelling(s, b, s.rows[b].(desired := desired, shouldRun := shouldRun), Nobody, a);
    case MisroutedRelease(p, told) => AwakeMisrouted(s, p, told, a);
    case ForcedRelease(_) =>
      assert AwakeAt(s, a) && AwakeAt(s, b);
      AwakeCommit(s, b, Row(None, None, s.rows[b].shouldRun), a);
      AwakeCommit(s, b, Row(None, None, s.rows[b].shouldRun), b);
  }

  // A harmless fault loses a wake-up if and only if KeepsAwake does not hold.
  lemma AwakeFaultIff(s: State, f: Fault)
    requires Safe(s) && Awake(s) && FaultEnabled(s, f) && Harmless(s, f)
    ensures Awake(AfterFault(s, f)) <==> KeepsAwake(s, f)
  {
    AwakeFaultAt(s, f, Subject(s, f));
    forall a | a != Subject(s, f) ensures AwakeAt(AfterFault(s, f), a) { AwakeFaultAt(s, f, a); }
  }

  // ----- accounts that are synced without monitors -----

  // A stop that fails after it killed the monitors must not leave the account counted as synced,
  // or no later poll would start it again.
  predicate KeepsServed(s: State, f: Fault)
    requires FaultEnabled(s, f)
  {
    match f
    case StopFails(p) => At(s, p).phase.acc !in At(s, p).syncing
    case UnassignFails(p) => At(s, p).unassigning.value !in At(s, p).syncing
    case _ => true
  }

  lemma ServedAfter(s: State, f: Fault, p: Host, a: AccountId)
    requires Safe(s) && Served(s) && FaultEnabled(s, f) && KeepsServed(s, f)
    ensures ServedAt(AfterFault(s, f), p, a)
  {
    assert ServedAt(s, p, a) && SafeAt(s, p, a);
    match f
    case StartFails(q, _) => CommitFrame(s, Claim(At(s, q)).value, s.rows[Claim(At(s, q)).value].(syncHost := Some(q)));
    case CommitFails(q) => assert SafeAt(s, q, Claim(At(s, q)).value);
    case ForcedRelease(b) => CommitFrame(s, b, Row(None, None, s.rows[b].shouldRun));
    case StaleWrite(b, copy, desired, shouldRun) =>
      TellingFrame(s, b, StaleRow(s.rows[b], copy, desired, shouldRun), StaleRoute(copy, desired, shouldRun));
    case EventLost(b, desired, shouldRun) =>
      TellingFrame(s, b, s.rows[b].(desired := desired, shouldRun := shouldRun), Nobody);
    case MisroutedRelease(q, told) =>
      TellingFrame(s, At(s, q).phase.acc, s.rows[At(s, q).phase.acc].(syncHost := None), told);
    case _ =>
  }

  lemma ServedFaultIff(s: State, f: Fault)
    requires Safe(s) && Served(s) && FaultEnabled(s, f)
    ensures Served(AfterFault(s, f)) <==> KeepsServed(s, f)
  {
    if KeepsServed(s, f) {
      forall p, a ensures ServedAt(AfterFault(s, f), p, a) { ServedAfter(s, f, p, a); }
    } else {
      assert SafeAt(s, f.p, Subject(s, f));
      assert !ServedAt(AfterFault(s, f), f.p, Subject(s, f));
    }
  }

  // ----- whole runs -----

  // Nothing in the run harms the ownership, loses a wake-up or leaves an account without monitors.
  ghost predicate GentleEvent(s: State, e: Event)
    requires Happens(s, e)
  {
    match e
    case Normal(step) => GentleStep(s, step)
    case Faulty(f) => Harmless(s, f) && KeepsAwake(s, f) && KeepsServed(s, f)
  }

  ghost predicate GentleRun(states: seq<State>, events: seq<Event>) {
    IsRun(states, events) && forall i :: 0 <= i < |events| ==> GentleEvent(states[i], events[i])
  }

  // In every state of every run of gentle events no wake-up is lost.
  lemma {:induction false} NoLostWakeUp(states: seq<State>, events: seq<Event>, i: nat)
    requires GentleRun(states, events) && i <= |events|
    ensures Safe(states[i]) && Awake(states[i]) && Served(states[i])
  {
    if i > 0 {
      NoLostWakeUp(states, events, i - 1);
      GentleNext(states[i - 1], events[i - 1]);
    }
  }

  lemma GentleNext(s: State, e: Event)
    requires Safe(s) && Awake(s) && Served(s) && Happens(s, e) && GentleEvent(s, e)
    ensures Safe(After(s, e)) && Awake(After(s, e)) && Served(After(s, e))
  {
    match e
    case Normal(step) =>
      SafeStep(s, step);
      AwakeStep(s, step);
      ServedStep(s, step);
    case Faulty(f) =>
      SafeFaultIff(s, f);
      AwakeFaultIff(s, f);
      ServedFaultIff(s, f);
  }

  // Process p waits for events, has none about account a, and nobody is stopping a in it.
  predicate IdleFor(s: State, p: Host, a: AccountId) {
    At(s, p).phase.Waiting? && a !in Queue(s, p) && At(s, p).unassigning != Some(a)
  }

  // The row is where its columns say it should be: an enabled account is synced by its owner,
  // which is the desired host if there is one, and a disabled account is owned by nobody.
  ghost predicate Settled(s: State, a: AccountId)
    requires a in s.rows
  {
    var row := s.rows[a];
    if row.shouldRun then
      && row.syncHost.Some? && (row.desired == None || row.desired == row.syncHost)
      && a in At(s, row.syncHost.value).monitors
      && a in At(s, row.syncHost.value).syncing
    else row.syncHost == None
  }

  // The hosts named in the row are idle and nobody is offering the account.
  ghost predicate AtRest(s: State, a: AccountId) {
    && a in s.rows
    && (s.rows[a].syncHost.Some? ==> IdleFor(s, s.rows[a].syncHost.value, a))
    && (s.rows[a].desired.Some? ==> IdleFor(s, s.rows[a].desired.value, a))
    && a !in s.sharedQueue && forall p :: !HoldsOffer(s, p, a)
  }

  // The protocol comes to rest only in the configuration the operators asked for.
  lemma QuiescentIsSettled(states: seq<State>, events: seq<Event>, i: nat, a: AccountId)
    requires GentleRun(states, events) && i <= |events| && AtRest(states[i], a)
    ensures Settled(states[i], a)
  {
    NoLostWakeUp(states, events, i);
    var s := states[i];
    assert AwakeAt(s, a);
    if s.rows[a].syncHost.Some? {
      assert SafeAt(s, s.rows[a].syncHost.value, a) && ServedAt(s, s.rows[a].syncHost.value, a);
    }
  }
}
