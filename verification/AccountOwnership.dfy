// Account ownership and migration between sync processes
// (inbox/mailsync/service.py, inbox/models/account.py).
//
// Many processes share one row per account. A process claims a row under the row lock,
// gives it up by compare-and-swap, and is woken through its private queue or the shared queue.
// One step of this machine is one database transaction, one queue operation or one action on
// a process's own memory. What goes wrong between them is in AccountFaults.
module AccountOwnership {
  import opened Common

  type Host = nat        // a process identifier
  type AccountId = nat

  // ----- the account row -----

  datatype Row = Row(syncHost: Option<Host>, desired: Option<Host>, shouldRun: bool)

  // Whom a committed row wakes.
  datatype Route = Nobody | Private(host: Host) | Shared

  // The owner named in the row has to let the account go.
  predicate MustGiveUp(row: Row) {
    row.syncHost.Some? && (!row.shouldRun || (row.desired.Some? && row.desired != row.syncHost))
  }

  // send_migration_events
  function RouteFor(row: Row): Route {
    if row.syncHost.Some? then
      if MustGiveUp(row) then Private(row.syncHost.value) else Nobody
    else if !row.shouldRun then Nobody
    else if row.desired.Some? then Private(row.desired.value)
    else Shared
  }

  // account_ids_to_sync, one row
  predicate WantedBy(row: Row, p: Host) {
    && row.shouldRun
    && ( || (row.desired == Some(p) && row.syncHost == None)
         || (row.desired == None && row.syncHost == Some(p))
         || (row.desired == Some(p) && row.syncHost == Some(p)))
  }

  // The checks of start_sync on the locked row.
  predicate Claimable(row: Row, p: Host) {
    row.shouldRun && (row.desired == None || row.desired == Some(p)) && (row.syncHost == None || row.syncHost == Some(p))
  }

  // sync_stopped: compare-and-swap on the owner.
  function Released(row: Row, p: Host): Row {
    if row.syncHost == Some(p) then row.(syncHost := None) else row
  }

  // ----- a process -----

  // Where the main loop of a process stands. `again` tells that the current poll was caused by a
  // private event, after which the loop starts over with another poll.
  datatype Phase =
    | PollDue(again: bool)
    | Starting(start: set<AccountId>, todo: set<AccountId>, again: bool)
    | Claiming(start: set<AccountId>, todo: set<AccountId>, again: bool, acc: AccountId)
    | Stopping(todo: set<AccountId>, again: bool)
    | Releasing(todo: set<AccountId>, again: bool, acc: AccountId)
    | Waiting
    | Flushing
    | Offered(acc: AccountId)
    | ClaimingOffered(acc: AccountId)

  // `unassigning` is the account that the HTTP thread of the process is stopping right now.
  datatype Process = Process(phase: Phase, syncing: set<AccountId>, monitors: set<AccountId>,
                             unassigning: Option<AccountId>)

  // A process that has just (re)started, or that has not been launched yet.
  const FRESH := Process(PollDue(false), {}, {}, None)

  // The account whose row lock the process holds.
  function Claim(proc: Process): Option<AccountId> {
    if proc.phase.Claiming? || proc.phase.ClaimingOffered? then Some(proc.phase.acc) else None
  }

  // The in-process semaphore around start_sync and stop_sync.
  predicate SemaphoreFree(proc: Process) {
    Claim(proc) == None && !proc.phase.Releasing? && proc.unassigning == None
  }

  // The process will still take a fresh poll snapshot before it next waits for an event.
  predicate SnapshotDue(phase: Phase) {
    match phase
    case PollDue(_) => true
    case Flushing => true
    case Offered(_) => true
    case ClaimingOffered(_) => true
    case Waiting => false
    case _ => phase.again
  }

  // ----- the whole deployment -----

  datatype State = State(
    rows: map<AccountId, Row>,
    locks: map<AccountId, Host>,
    procs: map<Host, Process>,
    privateQueues: map<Host, seq<AccountId>>,
    sharedQueue: seq<AccountId>)

  function At(s: State, p: Host): Process {
    if p in s.procs then s.procs[p] else FRESH
  }

  function Queue(s: State, p: Host): seq<AccountId> {
    if p in s.privateQueues then s.privateQueues[p] else []
  }

  function Put(s: State, p: Host, proc: Process): State {
    s.(procs := s.procs[p := proc])
  }

  function Emit(s: State, a: AccountId, row: Row): State {
    match RouteFor(row)
    case Nobody => s
    case Private(h) => s.(privateQueues := s.privateQueues[h := Queue(s, h) + [a]])
    case Shared => s.(sharedQueue := s.sharedQueue + [a])
  }

  // Commit of a transaction that leaves `row` as the value of account a. An event goes out only
  // when one of the three watched columns changed.
  function Commit(s: State, a: AccountId, row: Row): State {
    if a in s.rows && s.rows[a] == row then s else Emit(s.(rows := s.rows[a := row]), a, row)
  }

  function Wanted(s: State, p: Host): set<AccountId> {
    set a | a in s.rows && WantedBy(s.rows[a], p)
  }

  function Owned(s: State, p: Host): set<AccountId> {
    set a | a in s.rows && s.rows[a].syncHost == Some(p)
  }

  predicate CanStart(s: State, p: Host, a: AccountId) {
    a in s.rows && Claimable(s.rows[a], p) && a !in At(s, p).syncing
  }

  // ----- steps -----

  datatype Step =
    | OperatorWrite(a: AccountId, desired: Option<Host>, shouldRun: bool)  // create or update
    | StartSnapshot(p: Host)
    | SkipSyncing(p: Host, a: AccountId)
    | TryStart(p: Host, a: AccountId)
    | CommitStart(p: Host)
    | StopSnapshot(p: Host)
    | KillMonitors(p: Host, a: AccountId)
    | Release(p: Host)
    | FinishPoll(p: Host)
    | ReceiveShared(p: Host)
    | ReceivePrivate(p: Host)
    | FlushOne(p: Host)
    | FlushDone(p: Host)
    | TryOffered(p: Host)
    | CommitOffered(p: Host)
    | Decline(p: Host)
    | UnassignKill(p: Host, a: AccountId)
    | UnassignRelease(p: Host)
    | Resend(h: Host, a: AccountId)   // an after_commit hook that fires on a second commit
    | Crash(p: Host)

  predicate Enabled(s: State, step: Step) {
    match step
    case OperatorWrite(a, _, _) => a !in s.locks
    case StartSnapshot(p) => At(s, p).phase.PollDue?
    case SkipSyncing(p, a) => At(s, p).phase.Starting? && a in At(s, p).phase.todo && a in At(s, p).syncing
    case TryStart(p, a) =>
      && At(s, p).phase.Starting? && a in At(s, p).phase.todo && a !in At(s, p).syncing
      && SemaphoreFree(At(s, p)) && a !in s.locks
    case CommitStart(p) => At(s, p).phase.Claiming? && At(s, p).phase.acc in s.rows
    case StopSnapshot(p) => At(s, p).phase.Starting? && At(s, p).phase.todo == {}
    case KillMonitors(p, a) => At(s, p).phase.Stopping? && a in At(s, p).phase.todo && SemaphoreFree(At(s, p))
    case Release(p) => At(s, p).phase.Releasing? && At(s, p).phase.acc in s.rows && At(s, p).phase.acc !in s.locks
    case FinishPoll(p) => At(s, p).phase.Stopping? && At(s, p).phase.todo == {}
    case ReceiveShared(p) => At(s, p).phase.Waiting? && s.sharedQueue != []
    case ReceivePrivate(p) => At(s, p).phase.Waiting? && s.sharedQueue == [] && Queue(s, p) != []
    case FlushOne(p) => At(s, p).phase.Flushing? && Queue(s, p) != []
    case FlushDone(p) => At(s, p).phase.Flushing? && Queue(s, p) == []
    case TryOffered(p) => At(s, p).phase.Offered? && SemaphoreFree(At(s, p)) && At(s, p).phase.acc !in s.locks
    case CommitOffered(p) => At(s, p).phase.ClaimingOffered? && At(s, p).phase.acc in s.rows
    case Decline(p) => At(s, p).phase.Offered?
    case UnassignKill(p, a) => SemaphoreFree(At(s, p)) && a in s.rows
    case UnassignRelease(p) =>
      && At(s, p).unassigning.Some? && At(s, p).unassigning.value in s.rows
      && At(s, p).unassigning.value !in s.locks
    case Resend(_, _) => true
    case Crash(_) => true
  }

  // The claim of account a is committed and the process moves on to `next`.
  function FinishClaim(s: State, p: Host, a: AccountId, next: Phase): State
    requires a in s.rows
  {
    var s1 := Commit(s, a, s.rows[a].(syncHost := Some(p)));
    Put(s1.(locks := s1.locks - {a}), p, At(s, p).(phase := next, syncing := At(s, p).syncing + {a}))
  }

  function BeginClaim(s: State, p: Host, a: AccountId, next: Phase): State {
    Put(s.(locks := s.locks[a := p]), p, At(s, p).(phase := next, monitors := At(s, p).monitors + {a}))
  }

  function PopPrivate(s: State, p: Host): State
    requires Queue(s, p) != []
  {
    s.(privateQueues := s.privateQueues[p := Queue(s, p)[1..]])
  }

  function Do(s: State, step: Step): State
    requires Enabled(s, step)
  {
    match step
    case OperatorWrite(a, desired, shouldRun) =>
      Commit(s, a, Row(if a in s.rows then s.rows[a].syncHost else None, desired, shouldRun))
    case StartSnapshot(p) =>
      Put(s, p, At(s, p).(phase := Starting(Wanted(s, p), Wanted(s, p), At(s, p).phase.again)))
    case SkipSyncing(p, a) =>
      var ph := At(s, p).phase;
      Put(s, p, At(s, p).(phase := Starting(ph.start, ph.todo - {a}, ph.again)))
    case TryStart(p, a) =>
      var ph := At(s, p).phase;
      if CanStart(s, p, a) then BeginClaim(s, p, a, Claiming(ph.start, ph.todo - {a}, ph.again, a))
      else Put(s, p, At(s, p).(phase := Starting(ph.start, ph.todo - {a}, ph.again)))
    case CommitStart(p) =>
      var ph := At(s, p).phase;
      FinishClaim(s, p, ph.acc, Starting(ph.start, ph.todo, ph.again))
    case StopSnapshot(p) =>
      Put(s, p, At(s, p).(phase := Stopping(Owned(s, p) - At(s, p).phase.start, At(s, p).phase.again)))
    case KillMonitors(p, a) =>
      var ph := At(s, p).phase;
      Put(s, p, At(s, p).(phase := Releasing(ph.todo - {a}, ph.again, a), monitors := At(s, p).monitors - {a}))
    case Release(p) =>
      var ph := At(s, p).phase;
      Put(Commit(s, ph.acc, Released(s.rows[ph.acc], p)), p,
          At(s, p).(phase := Stopping(ph.todo, ph.again), syncing := At(s, p).syncing - {ph.acc}))
    case FinishPoll(p) =>
      Put(s, p, At(s, p).(phase := if At(s, p).phase.again then PollDue(false) else Waiting))
    case ReceiveShared(p) =>
      Put(s.(sharedQueue := s.sharedQueue[1..]), p, At(s, p).(phase := Offered(s.sharedQueue[0])))
    case ReceivePrivate(p) => Put(PopPrivate(s, p), p, At(s, p).(phase := Flushing))
    case FlushOne(p) => PopPrivate(s, p)
    case FlushDone(p) => Put(s, p, At(s, p).(phase := PollDue(true)))
    case TryOffered(p) =>
      var a := At(s, p).phase.acc;
      if CanStart(s, p, a) then BeginClaim(s, p, a, ClaimingOffered(a))
      else Put(s, p, At(s, p).(phase := PollDue(false)))
    case CommitOffered(p) => FinishClaim(s, p, At(s, p).phase.acc, PollDue(false))
    case Decline(p) =>
      Put(s.(sharedQueue := s.sharedQueue + [At(s, p).phase.acc]), p, At(s, p).(phase := PollDue(false)))
    case UnassignKill(p, a) =>
      Put(s, p, At(s, p).(unassigning := Some(a), monitors := At(s, p).monitors - {a}))
    case UnassignRelease(p) =>
      var a := At(s, p).unassigning.value;
      Put(Commit(s, a, Released(s.rows[a], p)), p,
          At(s, p).(unassigning := None, syncing := At(s, p).syncing - {a}))
    case Resend(h, a) => s.(privateQueues := s.privateQueues[h := Queue(s, h) + [a]])
    case Crash(p) =>
      // Memory and monitors are gone and an open claim is rolled back; the rows stay.
      Put(s.(locks := s.locks - (match Claim(At(s, p)) case None => {} case Some(a) => {a})), p, FRESH)
  }

  ghost predicate Init(s: State) {
    && s.locks == map[] && s.procs == map[] && s.rows == map[]
    && s.privateQueues == map[] && s.sharedQueue == []
  }
}
