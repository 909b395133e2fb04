// At most one process syncs an account, in every interleaving, crashes included, as long as the
// faults on the way are harmless; and exactly which faults are.
module SingleOwner {
  import opened Common
  import opened AccountOwnership
  import opened AccountFaults

  predicate InStartLoop(phase: Phase) { phase.Starting? || phase.Claiming? }

  // What process p and account a have to do with each other.
  ghost predicate SafeAt(s: State, p: Host, a: AccountId) {
    var proc := At(s, p);
    && (a in proc.syncing ==> a in s.rows && s.rows[a].syncHost == Some(p))
    && (a in proc.monitors ==> a in proc.syncing || Claim(proc) == Some(a))
    && (Claim(proc) == Some(a) <==> a in s.locks && s.locks[a] == p)
    && (Claim(proc) == Some(a) ==>
          a in s.rows && Claimable(s.rows[a], p) && a !in proc.syncing && a in proc.monitors && proc.unassigning == None)
    && (proc.phase.Releasing? ==> proc.unassigning == None)
    && (a in proc.monitors ==>
          proc.unassigning != Some(a) && !(proc.phase.Releasing? && proc.phase.acc == a))
    && (InStartLoop(proc.phase) && a in proc.phase.todo ==> a in proc.phase.start)
    && (proc.phase.Claiming? && proc.phase.acc == a ==> a in proc.phase.start && a !in proc.phase.todo)
    && (proc.phase.Releasing? && proc.phase.acc == a ==> a !in proc.phase.todo)
  }

  ghost predicate Safe(s: State) {
    forall p, a :: SafeAt(s, p, a)
  }

  lemma EmitFrame(s: State, a: AccountId, row: Row)
    ensures Emit(s, a, row).rows == s.rows && Emit(s, a, row).locks == s.locks && Emit(s, a, row).procs == s.procs
  {}

  lemma CommitFrame(s: State, a: AccountId, row: Row)
    ensures Commit(s, a, row).rows == s.rows[a := row]
    ensures Commit(s, a, row).locks == s.locks && Commit(s, a, row).procs == s.procs
  {
    EmitFrame(s.(rows := s.rows[a := row]), a, row);
  }

  lemma SafeStepAt(s: State, step: Step, p: Host, a: AccountId)
    requires Safe(s) && Enabled(s, step)
    ensures SafeAt(Do(s, step), p, a)
  {
    match step
    case OperatorWrite(b, desired, shouldRun) =>
      CommitFrame(s, b, Row(if b in s.rows then s.rows[b].syncHost else None, desired, shouldRun));
      assert SafeAt(s, p, a);
    case CommitStart(q) => SafeClaim(s, step, q, At(s, q).phase.acc, p, a);
    case CommitOffered(q) => SafeClaim(s, step, q, At(s, q).phase.acc, p, a);
    case TryStart(q, _) => SafeTry(s, step, q, p, a);
    case TryOffered(q) => SafeTry(s, step, q, p, a);
    case Release(q) => SafeRelease(s, step, q, p, a);
    case UnassignRelease(q) => SafeRelease(s, step, q, p, a);
    case _ => SafeElse(s, step, p, a);
  }

  lemma SafeElse(s: State, step: Step, p: Host, a: AccountId)
    requires Safe(s) && Enabled(s, step) && !step.OperatorWrite? && !step.CommitStart? && !step.CommitOffered?
    requires !step.TryStart? && !step.TryOffered? && !step.Release? && !step.UnassignRelease?
    ensures SafeAt(Do(s, step), p, a)
  {
    assert SafeAt(s, p, a);
    if step.Crash? { assert SafeAt(s, step.p, a); }
  }

  lemma SafeTry(s: State, step: Step, q: Host, p: Host, a: AccountId)
    requires Safe(s) && Enabled(s, step) && (step.TryStart? || step == TryOffered(q)) && step.p == q
    ensures SafeAt(Do(s, step), p, a)
  {
    assert SafeAt(s, p, a) && SafeAt(s, q, a);
  }

  lemma SafeRelease(s: State, step: Step, q: Host, p: Host, a: AccountId)
    requires Safe(s) && Enabled(s, step) && (step == Release(q) || step == UnassignRelease(q))
    ensures SafeAt(Do(s, step), p, a)
  {
    var b := if step.Release? then At(s, q).phase.acc else At(s, q).unassigning.value;
    CommitFrame(s, b, Released(s.rows[b], q));
    assert SafeAt(s, p, a) && SafeAt(s, q, a) && SafeAt(s, q, b);
  }

  lemma SafeClaim(s: State, step: Step, q: Host, b: AccountId, p: Host, a: AccountId)
    requires Safe(s) && Enabled(s, step) && (step == CommitStart(q) || step == CommitOffered(q))
    requires b == At(s, q).phase.acc
    ensures SafeAt(Do(s, step), p, a)
  {
    CommitFrame(s, b, s.rows[b].(syncHost := Some(q)));
    assert SafeAt(s, p, a) && SafeAt(s, q, b) && SafeAt(s, p, b) && SafeAt(s, q, a);
  }

  lemma SafeStep(s: State, step: Step)
    requires Safe(s) && Enabled(s, step)
    ensures Safe(Do(s, step))
  {
    forall p, a ensures SafeAt(Do(s, step), p, a) { SafeStepAt(s, step, p, a); }
  }

  // ----- faults -----

  // The faults that keep the invariant: a failed start must not leave a monitor behind, a failed
  // commit must not leave an unowned account syncing, and nobody must be syncing an account that
  // is taken away.
  ghost predicate Harmless(s: State, f: Fault)
    requires FaultEnabled(s, f)
  {
    match f
    case StartFails(_, started) => !started
    case CommitFails(p) => s.rows[Claim(At(s, p)).value].syncHost == Some(p)
    case ForcedRelease(a) => forall p :: a !in At(s, p).syncing
    case _ => true
  }

  lemma TellingFrame(s: State, a: AccountId, row: Row, told: Route)
    ensures CommitTelling(s, a, row, told).rows == s.rows[a := row]
    ensures CommitTelling(s, a, row, told).locks == s.locks && CommitTelling(s, a, row, told).procs == s.procs
  {}

  lemma SafeStartFails(s: State, p: Host, started: bool)
    requires Safe(s) && FaultEnabled(s, StartFails(p, started))
    ensures Safe(AfterFault(s, StartFails(p, started))) <==> !started
  {
    var a, s' := Claim(At(s, p)).value, AfterFault(s, StartFails(p, started));
    CommitFrame(s, a, s.rows[a].(syncHost := Some(p)));
    assert SafeAt(s, p, a);
    if started {
      assert !SafeAt(s', p, a);
    } else {
      forall q, b ensures SafeAt(s', q, b) { assert SafeAt(s, q, b) && SafeAt(s, q, a) && SafeAt(s, p, b); }
    }
  }

  lemma SafeCommitFails(s: State, p: Host)
    requires Safe(s) && FaultEnabled(s, CommitFails(p))
    ensures Safe(AfterFault(s, CommitFails(p))) <==> s.rows[Claim(At(s, p)).value].syncHost == Some(p)
  {
    var a, s' := Claim(At(s, p)).value, AfterFault(s, CommitFails(p));
    assert SafeAt(s, p, a);
    if s.rows[a].syncHost != Some(p) {
      assert !SafeAt(s', p, a);
    } else {
      forall q, b ensures SafeAt(s', q, b) { assert SafeAt(s, q, b) && SafeAt(s, q, a) && SafeAt(s, p, b); }
    }
  }

  lemma SafeForcedRelease(s: State, a: AccountId)
    requires Safe(s) && FaultEnabled(s, ForcedRelease(a))
    ensures Safe(AfterFault(s, ForcedRelease(a))) <==> forall p :: a !in At(s, p).syncing
  {
    var row, s' := Row(None, None, s.rows[a].shouldRun), AfterFault(s, ForcedRelease(a));
    CommitFrame(s, a, row);
    assert forall p :: At(s', p) == At(s, p);
    if p :| a in At(s, p).syncing {
      assert !SafeAt(s', p, a);
    } else {
      forall q, b ensures SafeAt(s', q, b) { assert SafeAt(s, q, b); }
    }
  }

  lemma SafeOtherFault(s: State, f: Fault, p: Host, a: AccountId)
    requires Safe(s) && FaultEnabled(s, f) && !f.StartFails? && !f.CommitFails? && !f.ForcedRelease?
    ensures SafeAt(AfterFault(s, f), p, a)
  {
    assert SafeAt(s, p, a);
    match f
    case StaleWrite(b, copy, desired, shouldRun) =>
      TellingFrame(s, b, StaleRow(s.rows[b], copy, desired, shouldRun), StaleRoute(copy, desired, shouldRun));
    case EventLost(b, desired, shouldRun) =>
      TellingFrame(s, b, s.rows[b].(desired := desired, shouldRun := shouldRun), Nobody);
    case MisroutedRelease(q, told) =>
      TellingFrame(s, At(s, q).phase.acc, s.rows[At(s, q).phase.acc].(syncHost := None), told);
      assert SafeAt(s, q, a) && SafeAt(s, q, At(s, q).phase.acc);
    case _ =>
  }

  // A fault keeps the invariant if and only if it is harmless.
  lemma SafeFaultIff(s: State, f: Fault)
    requires Safe(s) && FaultEnabled(s, f)
    ensures Safe(AfterFault(s, f)) <==> Harmless(s, f)
  {
    match f
    case StartFails(p, started) => SafeStartFails(s, p, started);
    case CommitFails(p) => SafeCommitFails(s, p);
    case ForcedRelease(a) => SafeForcedRelease(s, a);
    case _ => forall p, a ensures SafeAt(AfterFault(s, f), p, a) { SafeOtherFault(s, f, p, a); }
  }

  // ----- whole runs -----

  // A run whose faults are all harmless.
  ghost predicate HarmlessRun(states: seq<State>, events: seq<Event>) {
    && IsRun(states, events)
    && forall i :: 0 <= i < |events| && events[i].Faulty? ==> Harmless(states[i], events[i].fault)
  }

  lemma {:induction false} SafeRun(states: seq<State>, events: seq<Event>, i: nat)
    requires HarmlessRun(states, events) && i <= |events|
    ensures Safe(states[i])
  {
    if i > 0 {
      SafeRun(states, events, i - 1);
      match events[i - 1]
      case Normal(step) => SafeStep(states[i - 1], step);
      case Faulty(f) => SafeFaultIff(states[i - 1], f);
    }
  }

  // In every state of every such run: monitors of an account run only in the process that owns its
  // row or holds its row lock, and never in two processes at once.
  lemma SingleOwner(states: seq<State>, events: seq<Event>, i: nat, p: Host, a: AccountId)
    requires HarmlessRun(states, events) && i <= |events| && a in At(states[i], p).monitors
    ensures a in states[i].rows
    ensures states[i].rows[a].syncHost == Some(p) || (a in states[i].locks && states[i].locks[a] == p)
    ensures forall q :: q != p ==> a !in At(states[i], q).monitors
  {
    SafeRun(states, events, i);
    assert SafeAt(states[i], p, a);
    forall q | q != p ensures a !in At(states[i], q).monitors { assert SafeAt(states[i], q, a); }
  }

  // The owner of a row changes only by a release followed, in a later step, by a claim.
  lemma OwnerNeverHandedOver(states: seq<State>, events: seq<Event>, i: nat, a: AccountId)
    requires HarmlessRun(states, events) && i < |events| && a in states[i].rows && states[i].rows[a].syncHost.Some?
    ensures a in states[i + 1].rows
    ensures states[i + 1].rows[a].syncHost == states[i].rows[a].syncHost || states[i + 1].rows[a].syncHost == None
  {
    SafeRun(states, events, i);
    match events[i]
    case Normal(step) => OwnerAfterStep(states[i], step, a);
    case Faulty(f) => OwnerAfterFault(states[i], f, a);
  }

  lemma OwnerAfterStep(s: State, step: Step, a: AccountId)
    requires Safe(s) && Enabled(s, step) && a in s.rows && s.rows[a].syncHost.Some?
    ensures a in Do(s, step).rows
    ensures Do(s, step).rows[a].syncHost == s.rows[a].syncHost || Do(s, step).rows[a].syncHost == None
  {
    match step
    case OperatorWrite(b, desired, shouldRun) =>
      CommitFrame(s, b, Row(if b in s.rows then s.rows[b].syncHost else None, desired, shouldRun));
    case CommitStart(q) =>
      assert SafeAt(s, q, At(s, q).phase.acc);
      CommitFrame(s, At(s, q).phase.acc, s.rows[At(s, q).phase.acc].(syncHost := Some(q)));
    case CommitOffered(q) =>
      assert SafeAt(s, q, At(s, q).phase.acc);
      CommitFrame(s, At(s, q).phase.acc, s.rows[At(s, q).phase.acc].(syncHost := Some(q)));
    case Release(q) =>
      CommitFrame(s, At(s, q).phase.acc, Released(s.rows[At(s, q).phase.acc], q));
    case UnassignRelease(q) =>
      CommitFrame(s, At(s, q).unassigning.value, Released(s.rows[At(s, q).unassigning.value], q));
    case _ =>
  }

  lemma OwnerAfterFault(s: State, f: Fault, a: AccountId)
    requires Safe(s) && FaultEnabled(s, f) && a in s.rows && s.rows[a].syncHost.Some?
    ensures a in AfterFault(s, f).rows
    ensures AfterFault(s, f).rows[a].syncHost == s.rows[a].syncHost || AfterFault(s, f).rows[a].syncHost == None
  {
    match f
    case StartFails(p, _) =>
      var b := Claim(At(s, p)).value;
      assert SafeAt(s, p, b);
      CommitFrame(s, b, s.rows[b].(syncHost := Some(p)));
    case ForcedRelease(b) => CommitFrame(s, b, Row(None, None, s.rows[b].shouldRun));
    case StaleWrite(b, copy, desired, shouldRun) =>
      TellingFrame(s, b, StaleRow(s.rows[b], copy, desired, shouldRun), StaleRoute(copy, desired, shouldRun));
    case EventLost(b, desired, shouldRun) =>
      TellingFrame(s, b, s.rows[b].(desired := desired, shouldRun := shouldRun), Nobody);
    case MisroutedRelease(q, told) =>
      TellingFrame(s, At(s, q).phase.acc, s.rows[At(s, q).phase.acc].(syncHost := None), told);
    case _ =>
  }

  // The monitor dictionaries are never overwritten: a start that gets past its checks finds no
  // running monitor of the account, so every monitor that was started can still be killed.
  lemma NoMonitorOverwritten(states: seq<State>, events: seq<Event>, i: nat, p: Host, a: AccountId)
    requires HarmlessRun(states, events) && i <= |events| && SemaphoreFree(At(states[i], p)) && CanStart(states[i], p, a)
    ensures a !in At(states[i], p).monitors
  {
    SafeRun(states, events, i);
    assert SafeAt(states[i], p, a);
  }

  // ----- what the harmful faults do -----

  // A start that raises with a monitor running: the process would start the account again at its
  // next poll and lose hold of that monitor.
  lemma FailedStartOverwrites(s: State, p: Host, started: bool)
    requires Safe(s) && FaultEnabled(s, StartFails(p, started))
    ensures var s', a := AfterFault(s, StartFails(p, started)), Claim(At(s, p)).value;
      && a in Wanted(s', p) && CanStart(s', p, a)
      && (a in At(s', p).monitors <==> started)
  {
    var a := Claim(At(s, p)).value;
    CommitFrame(s, a, s.rows[a].(syncHost := Some(p)));
    assert SafeAt(s, p, a);
  }
}
