// Wake-ups: whatever has to happen to an account, the process that has to do it still has an event
// queued, an event in hand, or a poll to take. What every step of the protocol keeps.
module WakeUp {
  import opened Common
  import opened AccountOwnership
  import opened AccountFaults
  import opened SingleOwner

  predicate InStopLoop(phase: Phase) { phase.Stopping? || phase.Releasing? }

  predicate HoldsOffer(s: State, p: Host, a: AccountId) {
    At(s, p).phase == Offered(a) || At(s, p).phase == ClaimingOffered(a)
  }

  // Process p still has account a before it as one to start.
  predicate StartPending(s: State, p: Host, a: AccountId) {
    var phase := At(s, p).phase;
    || a in Queue(s, p)
    || SnapshotDue(phase)
    || (InStartLoop(phase) && a in phase.todo)
    || Claim(At(s, p)) == Some(a)
  }

  // Process p, the owner, still has account a before it as one to stop. In the start loop this
  // holds of every owned account that its snapshot left out, since the stop loop takes those.
  predicate StopPending(s: State, p: Host, a: AccountId) {
    var phase := At(s, p).phase;
    || a in Queue(s, p)
    || SnapshotDue(phase)
    || (InStartLoop(phase) && a !in phase.start)
    || (InStopLoop(phase) && a in phase.todo)
    || (phase.Releasing? && phase.acc == a)
    || At(s, p).unassigning == Some(a)
  }

  // Some process can still be told through the shared queue.
  ghost predicate OfferPending(s: State, a: AccountId) {
    a in s.sharedQueue || exists p :: HoldsOffer(s, p, a)
  }

  ghost predicate AwakeRow(s: State, a: AccountId, row: Row) {
    match row.syncHost
    case None =>
      row.shouldRun ==>
        if row.desired.Some? then StartPending(s, row.desired.value, a) else OfferPending(s, a)
    case Some(h) =>
      && (MustGiveUp(row) ==> StopPending(s, h, a))
      && (a !in At(s, h).syncing ==> StartPending(s, h, a) || StopPending(s, h, a))
  }

  ghost predicate AwakeAt(s: State, a: AccountId) {
    a in s.rows ==> AwakeRow(s, a, s.rows[a])
  }

  ghost predicate Awake(s: State) {
    forall a :: AwakeAt(s, a)
  }

  // Process p holds the last offer of an account that only the shared queue can place.
  ghost predicate LastOffer(s: State, p: Host, a: AccountId) {
    && a in s.rows && RouteFor(s.rows[a]).Shared? && HoldsOffer(s, p, a)
    && a !in s.sharedQueue && forall q :: q != p ==> !HoldsOffer(s, q, a)
  }

  // Among the steps only a crash can lose a wake-up.
  ghost predicate GentleStep(s: State, step: Step) {
    step.Crash? ==> forall a :: !LastOffer(s, step.p, a)
  }

  // What a process syncs has its monitors, unless it is being stopped.
  predicate ServedAt(s: State, p: Host, a: AccountId) {
    var proc := At(s, p);
    a in proc.syncing ==>
      a in proc.monitors || proc.unassigning == Some(a) || (proc.phase.Releasing? && proc.phase.acc == a)
  }

  ghost predicate Served(s: State) {
    forall p, a :: ServedAt(s, p, a)
  }

  // ----- commits -----

  lemma CommitGrowsQueues(s: State, a: AccountId, row: Row, p: Host)
    ensures Queue(s, p) <= Queue(Commit(s, a, row), p)
    ensures s.sharedQueue <= Commit(s, a, row).sharedQueue
  {}

  lemma CommitSendsEvent(s: State, a: AccountId, row: Row)
    requires a in s.rows ==> s.rows[a] != row
    ensures RouteFor(row).Private? ==> a in Queue(Commit(s, a, row), RouteFor(row).host)
    ensures RouteFor(row).Shared? ==> a in Commit(s, a, row).sharedQueue
  {
    var s1 := s.(rows := s.rows[a := row]);
    match RouteFor(row)
    case Private(h) => assert (Queue(s1, h) + [a])[|Queue(s1, h)|] == a;
    case Shared => assert (s1.sharedQueue + [a])[|s1.sharedQueue|] == a;
    case Nobody =>
  }

  // ----- steps -----

  // A step of process q that commits nothing and keeps the offers of account a.
  lemma OffersKept(s: State, s': State, q: Host, a: AccountId)
    requires forall p :: p != q ==> At(s', p) == At(s, p)
    requires HoldsOffer(s, q, a) ==> HoldsOffer(s', q, a) || a in s'.sharedQueue
    requires a in s.sharedQueue ==> OfferPending(s', a)
    requires OfferPending(s, a)
    ensures OfferPending(s', a)
  {
    if a !in s.sharedQueue {
      var p :| HoldsOffer(s, p, a);
      assert HoldsOffer(s', p, a) || a in s'.sharedQueue;
    }
  }

  lemma AwakeStartLoop(s: State, step: Step, a: AccountId)
    requires Safe(s) && Awake(s) && Enabled(s, step)
    requires step.StartSnapshot? || step.SkipSyncing? || step.StopSnapshot?
    ensures AwakeAt(Do(s, step), a)
  {
    assert AwakeAt(s, a) && SafeAt(s, step.p, a);
    if a in s.rows && RouteFor(s.rows[a]).Shared? { OffersKept(s, Do(s, step), step.p, a); }
  }

  lemma AwakeStopLoop(s: State, step: Step, a: AccountId)
    requires Safe(s) && Awake(s) && Enabled(s, step)
    requires step.KillMonitors? || step.FinishPoll? || step.FlushDone? || step.UnassignKill?
    ensures AwakeAt(Do(s, step), a)
  {
    assert AwakeAt(s, a);
    if a in s.rows && RouteFor(s.rows[a]).Shared? { OffersKept(s, Do(s, step), step.p, a); }
  }

  lemma AwakeTryStart(s: State, step: Step, a: AccountId)
    requires Safe(s) && Awake(s) && Enabled(s, step) && step.TryStart?
    ensures AwakeAt(Do(s, step), a)
  {
    assert AwakeAt(s, a) && SafeAt(s, step.p, a);
    if a in s.rows && RouteFor(s.rows[a]).Shared? { OffersKept(s, Do(s, step), step.p, a); }
  }

  lemma AwakeTryOffered(s: State, step: Step, a: AccountId)
    requires Safe(s) && Awake(s) && Enabled(s, step) && step.TryOffered?
    ensures AwakeAt(Do(s, step), a)
  {
    assert AwakeAt(s, a) && SafeAt(s, step.p, a);
    if a in s.rows && RouteFor(s.rows[a]).Shared? { OffersKept(s, Do(s, step), step.p, a); }
  }

  lemma PopKeepsOthers(s: State, p: Host, a: AccountId)
    requires Queue(s, p) != []
    ensures forall h :: h != p ==> Queue(PopPrivate(s, p), h) == Queue(s, h)
  {}

  lemma AwakeQueue(s: State, step: Step, a: AccountId)
    requires Safe(s) && Awake(s) && Enabled(s, step)
    requires step.ReceivePrivate? || step.FlushOne? || step.Resend?
    ensures AwakeAt(Do(s, step), a)
  {
    var s' := Do(s, step);
    assert AwakeAt(s, a);
    if step.Resend? {
      assert forall h :: Queue(s, h) <= Queue(s', h);
      if a in s.rows && RouteFor(s.rows[a]).Shared? { OffersKept(s, s', 0, a); }
    } else {
      PopKeepsOthers(s, step.p, a);
      if a in s.rows && RouteFor(s.rows[a]).Shared? { OffersKept(s, s', step.p, a); }
    }
  }

  lemma AwakeShared(s: State, step: Step, a: AccountId)
    requires Safe(s) && Awake(s) && Enabled(s, step) && (step.ReceiveShared? || step.Decline?)
    ensures AwakeAt(Do(s, step), a)
  {
    var s' := Do(s, step);
    assert AwakeAt(s, a);
    if a in s.rows && RouteFor(s.rows[a]).Shared? {
      if a in s.sharedQueue {
        if step.ReceiveShared? && a !in s'.sharedQueue {
          assert s.sharedQueue == [s.sharedQueue[0]] + s.sharedQueue[1..];
          assert HoldsOffer(s', step.p, a);
        }
        assert OfferPending(s', a);
      }
      if step.Decline? && HoldsOffer(s, step.p, a) { assert s'.sharedQueue[|s.sharedQueue|] == a; }
      OffersKept(s, s', step.p, a);
    }
  }

  lemma AwakeCommit(s: State, b: AccountId, row: Row, a: AccountId)
    requires AwakeAt(s, a)
    requires b in s.rows && row != s.rows[b] ==> row.syncHost == None || row.syncHost == s.rows[b].syncHost
    requires b !in s.rows ==> row.syncHost == None
    ensures AwakeAt(Commit(s, b, row), a)
  {
    CommitFrame(s, b, row);
    var s' := Commit(s, b, row);
    forall p ensures Queue(s, p) <= Queue(s', p) { CommitGrowsQueues(s, b, row, p); }
    CommitGrowsQueues(s, b, row, 0);
    if a == b && !(b in s.rows && s.rows[b] == row) {
      CommitSendsEvent(s, b, row);
    } else if a in s.rows && RouteFor(s.rows[a]).Shared? {
      OffersKept(s, s', 0, a);
    }
  }

  lemma AwakeRelease(s: State, step: Step, a: AccountId)
    requires Safe(s) && Awake(s) && Enabled(s, step) && (step.Release? || step.UnassignRelease?)
    ensures AwakeAt(Do(s, step), a)
  {
    var q := step.p;
    var b := if step.Release? then At(s, q).phase.acc else At(s, q).unassigning.value;
    var s1 := Commit(s, b, Released(s.rows[b], q));
    assert AwakeAt(s, a) && SafeAt(s, q, a);
    AwakeCommit(s, b, Released(s.rows[b], q), a);
    CommitFrame(s, b, Released(s.rows[b], q));
    var proc := At(Do(s, step), q);
    assert Do(s, step) == Put(s1, q, proc);
    AwakeStopped(s1, q, b, proc, a);
  }

  // After the commit the process forgets the account it stopped, which it no longer owns.
  lemma AwakeStopped(s: State, q: Host, b: AccountId, proc: Process, a: AccountId)
    requires AwakeAt(s, a) && (b in s.rows ==> s.rows[b].syncHost != Some(q))
    requires proc.syncing == At(s, q).syncing - {b}
    requires (At(s, q).phase.Releasing? && proc.phase == Stopping(At(s, q).phase.todo, At(s, q).phase.again) && At(s, q).phase.acc == b
              && proc.unassigning == At(s, q).unassigning)
          || (At(s, q).unassigning == Some(b) && proc.unassigning == None && proc.phase == At(s, q).phase)
    ensures AwakeAt(Put(s, q, proc), a)
  {
    var s' := Put(s, q, proc);
    if a in s.rows && RouteFor(s.rows[a]).Shared? { OffersKept(s, s', q, a); }
  }

  lemma AwakeClaim(s: State, step: Step, a: AccountId)
    requires Safe(s) && Awake(s) && Enabled(s, step) && (step.CommitStart? || step.CommitOffered?)
    ensures AwakeAt(Do(s, step), a)
  {
    var q := step.p;
    var b := At(s, q).phase.acc;
    var row := s.rows[b].(syncHost := Some(q));
    assert AwakeAt(s, a) && SafeAt(s, q, a) && SafeAt(s, q, b);
    CommitFrame(s, b, row);
    var s' := Do(s, step);
    assert RouteFor(row) == Nobody;
    assert s'.privateQueues == s.privateQueues && s'.sharedQueue == s.sharedQueue;
    if a != b && a in s.rows && RouteFor(s.rows[a]).Shared? { OffersKept(s, s', q, a); }
  }

  // After p loses what it has in hand, the offers of account a are those of the others.
  lemma OffersWithout(s: State, s': State, p: Host, a: AccountId)
    requires forall q :: q != p ==> At(s', q) == At(s, q)
    requires s'.sharedQueue == s.sharedQueue && !HoldsOffer(s', p, a) && OfferPending(s, a)
    ensures OfferPending(s', a) <==> a in s.sharedQueue || exists q :: q != p && HoldsOffer(s, q, a)
  {
    forall q ensures HoldsOffer(s', q, a) <==> q != p && HoldsOffer(s, q, a) {}
  }

  lemma CrashKeepsAwakeAt(s: State, p: Host, a: AccountId)
    requires Safe(s) && Awake(s)
    ensures AwakeAt(Do(s, Crash(p)), a) <==> !LastOffer(s, p, a)
  {
    var s' := Do(s, Crash(p));
    assert AwakeAt(s, a);
    if a in s.rows && RouteFor(s.rows[a]).Shared? { OffersWithout(s, s', p, a); }
  }

  // A crash keeps every account awake unless the process holds the last offer of an account that
  // only the shared queue can place.
  lemma CrashKeepsAwakeIff(s: State, p: Host)
    requires Safe(s) && Awake(s)
    ensures Awake(Do(s, Crash(p))) <==> forall a :: !LastOffer(s, p, a)
  {
    forall a ensures AwakeAt(Do(s, Crash(p)), a) <==> !LastOffer(s, p, a) { CrashKeepsAwakeAt(s, p, a); }
  }

  lemma AwakeStep(s: State, step: Step)
    requires Safe(s) && Awake(s) && Enabled(s, step) && GentleStep(s, step)
    ensures Awake(Do(s, step))
  {
    forall a ensures AwakeAt(Do(s, step), a) {
      match step
      case OperatorWrite(b, desired, shouldRun) =>
        assert AwakeAt(s, a);
        AwakeCommit(s, b, Row(if b in s.rows then s.rows[b].syncHost else None, desired, shouldRun), a);
      case TryStart(_, _) => AwakeTryStart(s, step, a);
      case TryOffered(_) => AwakeTryOffered(s, step, a);
      case ReceivePrivate(_) => AwakeQueue(s, step, a);
      case FlushOne(_) => AwakeQueue(s, step, a);
      case Resend(_, _) => AwakeQueue(s, step, a);
      case ReceiveShared(_) => AwakeShared(s, step, a);
      case Decline(_) => AwakeShared(s, step, a);
      case Release(_) => AwakeRelease(s, step, a);
      case UnassignRelease(_) => AwakeRelease(s, step, a);
      case CommitStart(_) => AwakeClaim(s, step, a);
      case CommitOffered(_) => AwakeClaim(s, step, a);
      case Crash(p) => CrashKeepsAwakeAt(s, p, a);
      case StartSnapshot(_) => AwakeStartLoop(s, step, a);
      case SkipSyncing(_, _) => AwakeStartLoop(s, step, a);
      case StopSnapshot(_) => AwakeStartLoop(s, step, a);
      case _ => AwakeStopLoop(s, step, a);
    }
  }

  lemma ServedStep(s: State, step: Step)
    requires Safe(s) && Served(s) && Enabled(s, step)
    ensures Served(Do(s, step))
  {
    forall p, a ensures ServedAt(Do(s, step), p, a) { ServedStepAt(s, step, p, a); }
  }

  lemma ServedStepAt(s: State, step: Step, p: Host, a: AccountId)
    requires Safe(s) && Served(s) && Enabled(s, step)
    ensures ServedAt(Do(s, step), p, a)
  {
    assert ServedAt(s, p, a) && SafeAt(s, p, a);
    match step
    case OperatorWrite(b, desired, shouldRun) =>
      CommitFrame(s, b, Row(if b in s.rows then s.rows[b].syncHost else None, desired, shouldRun));
    case CommitStart(q) => CommitFrame(s, At(s, q).phase.acc, s.rows[At(s, q).phase.acc].(syncHost := Some(q)));
    case CommitOffered(q) => CommitFrame(s, At(s, q).phase.acc, s.rows[At(s, q).phase.acc].(syncHost := Some(q)));
    case Release(q) => CommitFrame(s, At(s, q).phase.acc, Released(s.rows[At(s, q).phase.acc], q));
    case UnassignRelease(q) => CommitFrame(s, At(s, q).unassigning.value, Released(s.rows[At(s, q).unassigning.value], q));
    case _ =>
  }
}
