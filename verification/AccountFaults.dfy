// What can go wrong in the ownership protocol without a crash (inbox/mailsync/service.py,
// inbox/models/account.py), and the runs of the protocol with all of it.
module AccountFaults {
  import opened Common
  import opened AccountOwnership

  datatype Fault =
    // A start raises before it holds the row: the start loop logs a database error and goes on.
    | StartRefused(p: Host, a: AccountId)
    // A start raises part-way, is logged, and its session still commits the claim. `started` tells
    // whether a monitor was running by then.
    | StartFails(p: Host, started: bool)
    // The commit of a claim raises: the row is rolled back, the process's own state is not.
    | CommitFails(p: Host)
    // Starting an account offered by the shared queue raises, and nobody puts the event back.
    | OfferDropped(p: Host)
    // The monitors are killed, but the release raises.
    | StopFails(p: Host)
    | UnassignFails(p: Host)
    // Any other exception leaves the poll, or the wait for an event; the main loop starts over.
    | PollAborted(p: Host)
    // An operator's session read the row earlier as `copy` and sets some of its columns. Only what
    // differs from the copy is written, and the event is made from the copy.
    | StaleWrite(a: AccountId, copy: Row, newDesired: Option<Option<Host>>, newShouldRun: Option<bool>)
    // A release whose event goes to `told`: made from an earlier copy of the row, or not sent at all.
    | MisroutedRelease(p: Host, told: Route)
    // The event of an operator's commit cannot be sent.
    | EventLost(a: AccountId, desired: Option<Host>, shouldRun: bool)
    // An operator takes the account away from whoever owns it.
    | ForcedRelease(a: AccountId)

  predicate FaultEnabled(s: State, f: Fault) {
    match f
    case StartRefused(p, a) => Enabled(s, TryStart(p, a))
    case StartFails(p, _) => Claim(At(s, p)).Some? && Claim(At(s, p)).value in s.rows
    case CommitFails(p) => Claim(At(s, p)).Some? && Claim(At(s, p)).value in s.rows
    case OfferDropped(p) => At(s, p).phase.Offered?
    case StopFails(p) => At(s, p).phase.Releasing?
    case UnassignFails(p) => At(s, p).unassigning.Some?
    case PollAborted(p) =>
      var phase := At(s, p).phase;
      phase.PollDue? || phase.Starting? || phase.Stopping? || phase.Waiting? || phase.Flushing?
    case StaleWrite(a, _, _, _) => a in s.rows && a !in s.locks
    case MisroutedRelease(p, _) => Enabled(s, Release(p)) && s.rows[At(s, p).phase.acc].syncHost == Some(p)
    case EventLost(a, _, _) => a in s.rows && a !in s.locks
    case ForcedRelease(a) => a in s.rows && a !in s.locks
  }

  // Where the process goes on after a claim.
  function AfterClaim(phase: Phase): Phase {
    match phase
    case Claiming(start, todo, again, _) => Starting(start, todo, again)
    case _ => PollDue(false)
  }

  function LeaveClaim(s: State, p: Host, a: AccountId, syncing: set<AccountId>, monitors: set<AccountId>): State {
    Put(s.(locks := s.locks - {a}), p, Process(AfterClaim(At(s, p).phase), syncing, monitors, At(s, p).unassigning))
  }

  // A commit of `row` that tells `route`, whatever the row would ask for.
  function CommitTelling(s: State, a: AccountId, row: Row, route: Route): State {
    var s1 := s.(rows := s.rows[a := row]);
    match route
    case Nobody => s1
    case Private(h) => s1.(privateQueues := s1.privateQueues[h := Queue(s1, h) + [a]])
    case Shared => s1.(sharedQueue := s1.sharedQueue + [a])
  }

  // A column that the session sets: it counts as changed, and is written, if it differs from the copy.
  function Written<T(==)>(current: T, copy: T, new_: Option<T>): T {
    if new_.Some? && new_.value != copy then new_.value else current
  }

  function StaleRow(row: Row, copy: Row, desired: Option<Option<Host>>, shouldRun: Option<bool>): Row {
    row.(desired := Written(row.desired, copy.desired, desired), shouldRun := Written(row.shouldRun, copy.shouldRun, shouldRun))
  }

  // The event of such a session: none if it changed nothing.
  function StaleRoute(copy: Row, desired: Option<Option<Host>>, shouldRun: Option<bool>): Route {
    var copy' := StaleRow(copy, copy, desired, shouldRun);
    if copy' == copy then Nobody else RouteFor(copy')
  }

  function AfterFault(s: State, f: Fault): State
    requires FaultEnabled(s, f)
  {
    match f
    case StartRefused(p, a) =>
      var ph := At(s, p).phase;
      Put(s, p, At(s, p).(phase := Starting(ph.start, ph.todo - {a}, ph.again)))
    case StartFails(p, started) =>
      var a := Claim(At(s, p)).value;
      LeaveClaim(Commit(s, a, s.rows[a].(syncHost := Some(p))), p, a, At(s, p).syncing,
                 if started then At(s, p).monitors else At(s, p).monitors - {a})
    case CommitFails(p) =>
      var a := Claim(At(s, p)).value;
      LeaveClaim(s, p, a, At(s, p).syncing + {a}, At(s, p).monitors)
    case OfferDropped(p) => Put(s, p, At(s, p).(phase := PollDue(false)))
    case StopFails(p) => Put(s, p, At(s, p).(phase := Stopping(At(s, p).phase.todo, At(s, p).phase.again)))
    case UnassignFails(p) => Put(s, p, At(s, p).(unassigning := None))
    case PollAborted(p) => Put(s, p, At(s, p).(phase := PollDue(false)))
    case StaleWrite(a, copy, desired, shouldRun) =>
      CommitTelling(s, a, StaleRow(s.rows[a], copy, desired, shouldRun), StaleRoute(copy, desired, shouldRun))
    case MisroutedRelease(p, told) =>
      var ph := At(s, p).phase;
      Put(CommitTelling(s, ph.acc, s.rows[ph.acc].(syncHost := None), told), p,
          Process(Stopping(ph.todo, ph.again), At(s, p).syncing - {ph.acc}, At(s, p).monitors, At(s, p).unassigning))
    case EventLost(a, desired, shouldRun) =>
      CommitTelling(s, a, s.rows[a].(desired := desired, shouldRun := shouldRun), Nobody)
    case ForcedRelease(a) => Commit(s, a, Row(None, None, s.rows[a].shouldRun))
  }

  // ----- runs -----

  datatype Event = Normal(step: Step) | Faulty(fault: Fault)

  predicate Happens(s: State, e: Event) {
    match e case Normal(step) => Enabled(s, step) case Faulty(f) => FaultEnabled(s, f)
  }

  function After(s: State, e: Event): State
    requires Happens(s, e)
  {
    match e case Normal(step) => Do(s, step) case Faulty(f) => AfterFault(s, f)
  }

  ghost predicate IsRun(states: seq<State>, events: seq<Event>) {
    && |states| == |events| + 1
    && Init(states[0])
    && forall i :: 0 <= i < |events| ==> Happens(states[i], events[i]) && states[i + 1] == After(states[i], events[i])
  }

  // A run goes on with any event that can happen.
  lemma Extend(states: seq<State>, events: seq<Event>, e: Event) returns (states': seq<State>, events': seq<Event>)
    requires IsRun(states, events) && Happens(states[|events|], e)
    ensures IsRun(states', events') && events' == events + [e]
    ensures states'[|events'|] == After(states[|events|], e)
  {
    states', events' := states + [After(states[|events|], e)], events + [e];
    forall i | 0 <= i < |events'|
      ensures Happens(states'[i], events'[i]) && states'[i + 1] == After(states'[i], events'[i])
    {
      if i < |events| { assert events'[i] == events[i] && states'[i] == states[i] && states'[i + 1] == states[i + 1]; }
    }
  }
}
