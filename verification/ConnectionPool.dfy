// CrispinConnectionPool.get (inbox/crispin.py): greenlets share a bounded semaphore and a bounded
// queue of clients. Each step is what one greenlet does between two points where others may run.
module ConnectionPool {
  import opened Common

  type Greenlet = nat
  type Connection = nat

  // Where a greenlet stands inside `get`; a greenlet that is not listed is outside.
  datatype Phase =
    | Acquired                                 // holds the semaphore, about to take from the queue
    | Took(client: Option<Connection>)         // took a slot
    | Using(conn: Connection)                  // the caller's block runs
    | Discarding(conn: Connection)             // logging out after a discard-class error
    | Leaving(client: Option<Connection>)      // in `finally`, about to put the client back
    | Returned                                 // about to release the semaphore

  datatype Pool = Pool(
    size: nat, readonly: bool,
    permits: nat, queue: seq<Option<Connection>>, at: map<Greenlet, Phase>,
    made: set<Connection>,    // every connection ever made
    dropped: set<Connection>,   // no longer referenced by the pool
    broken: set<Connection>,    // saw a discard-class error
    kept: set<Connection>,      // put back after some other exception
    escaped: set<Connection>)   // put back because the logout after a discard-class error was cut short

  ghost function NewPool(size: nat, readonly: bool): Pool {
    Pool(size, readonly, size, seq(size, _ => None), map[], {}, {}, {}, {}, {})
  }

  datatype Step =
    | Acquire(g: Greenlet)
    | Take(g: Greenlet)
    | Reuse(g: Greenlet)                        // the slot held a connection
    | Connect(g: Greenlet, conn: Connection)    // the slot was empty: _new_connection
    | ConnectFails(g: Greenlet)                 // with any exception
    | Finish(g: Greenlet)                       // the caller's block ends normally
    | Unusable(g: Greenlet)                     // discard-class error, connection unusable: no logout
    | Discard(g: Greenlet)                      // discard-class error, logout starts
    | LoggedOut(g: Greenlet)                    // the logout ends, with or without an Exception
    | CutShort(g: Greenlet)                     // the greenlet is killed during that logout
    | Raise(g: Greenlet)                        // any other exception leaves the block
    | Put(g: Greenlet)
    | Release(g: Greenlet)

  predicate Blocked(s: Pool, step: Step) {
    match step
    case Acquire(g) => s.permits == 0
    case Take(g) => s.queue == []
    case Put(g) => |s.queue| == s.size
    case _ => false
  }

  // The greenlet stands where the step starts.
  predicate Reaches(s: Pool, step: Step) {
    var g := step.g;
    if step.Acquire? then g !in s.at
    else g in s.at && match step
      case Take(_) => s.at[g].Acquired?
      case Reuse(_) => s.at[g].Took? && s.at[g].client.Some?
      case Connect(_, c) => s.at[g] == Took(None) && c !in s.made
      case ConnectFails(_) => s.at[g] == Took(None)
      case Finish(_) => s.at[g].Using?
      case Unusable(_) => s.at[g].Using?
      case Discard(_) => s.at[g].Using?
      case LoggedOut(_) => s.at[g].Discarding?
      case CutShort(_) => s.at[g].Discarding?
      case Raise(_) => s.at[g].Using?
      case Put(_) => s.at[g].Leaving?
      case _ => s.at[g].Returned?
  }

  predicate Enabled(s: Pool, step: Step) { Reaches(s, step) && !Blocked(s, step) }

  function Goto(s: Pool, g: Greenlet, p: Phase): Pool { s.(at := s.at[g := p]) }

  function Do(s: Pool, step: Step): Pool
    requires Enabled(s, step)
  {
    match step
    case Acquire(g) => Goto(s, g, Acquired).(permits := s.permits - 1)
    case Take(g) => Goto(s, g, Took(s.queue[0])).(queue := s.queue[1..])
    case Reuse(g) => Goto(s, g, Using(s.at[g].client.value))
    case Connect(g, c) => Goto(s, g, Using(c)).(made := s.made + {c})
    case ConnectFails(g) => Goto(s, g, Leaving(None))
    case Finish(g) => if s.readonly then Goto(s, g, Leaving(Some(s.at[g].conn))) else Drop(s, g, s.at[g].conn)
    case Unusable(g) => var c := s.at[g].conn; Drop(s, g, c).(broken := s.broken + {c})
    case Discard(g) => var c := s.at[g].conn; Goto(s, g, Discarding(c)).(broken := s.broken + {c})
    case LoggedOut(g) => Drop(s, g, s.at[g].conn)
    case CutShort(g) => var c := s.at[g].conn; Goto(s, g, Leaving(Some(c))).(escaped := s.escaped + {c})
    case Raise(g) => var c := s.at[g].conn; Goto(s, g, Leaving(Some(c))).(kept := s.kept + {c})
    case Put(g) => Goto(s, g, Returned).(queue := s.queue + [s.at[g].client])
    case Release(g) => s.(at := s.at - {g}, permits := s.permits + 1)
  }

  // client = None
  function Drop(s: Pool, g: Greenlet, c: Connection): Pool {
    Goto(s, g, Leaving(None)).(dropped := s.dropped + {c})
  }

  ghost predicate IsRun(states: seq<Pool>, steps: seq<Step>) {
    && |states| == |steps| + 1
    && states[0] == NewPool(states[0].size, states[0].readonly)
    && forall i :: 0 <= i < |steps| ==> Enabled(states[i], steps[i]) && states[i + 1] == Do(states[i], steps[i])
  }

  // ----- permits and slots -----

  predicate HoldsSlot(p: Phase) { !p.Acquired? && !p.Returned? }

  function SlotHolders(s: Pool): set<Greenlet> { set g | g in s.at && HoldsSlot(s.at[g]) }

  predicate Counted(s: Pool) {
    && s.permits + |s.at.Keys| == s.size
    && |s.queue| + |SlotHolders(s)| == s.size
  }

  lemma HoldersAfter(s: Pool, step: Step)
    requires Enabled(s, step)
    ensures Do(s, step).at.Keys == if step.Release? then s.at.Keys - {step.g} else s.at.Keys + {step.g}
    ensures SlotHolders(Do(s, step)) ==
      if step.Take? then SlotHolders(s) + {step.g} else if step.Put? then SlotHolders(s) - {step.g} else SlotHolders(s)
  {
    var g, s' := step.g, Do(s, step);
    assert forall h :: h != g ==> (h in s'.at <==> h in s.at) && (h in s.at ==> s'.at[h] == s.at[h]);
    if step.Release? { assert g !in s'.at; } else { assert g in s'.at; }
    SlotOfActor(s, step);
  }

  lemma SlotOfActor(s: Pool, step: Step)
    requires Enabled(s, step)
    ensures step.g in SlotHolders(s) <==> !step.Acquire? && !step.Take? && !step.Release?
    ensures step.g in SlotHolders(Do(s, step)) <==> !step.Acquire? && !step.Put? && !step.Release?
  {}

  lemma QueueSize(s: Pool, step: Step)
    requires Enabled(s, step)
    ensures |Do(s, step).queue| == if step.Take? then |s.queue| - 1 else if step.Put? then |s.queue| + 1 else |s.queue|
    ensures Do(s, step).permits == if step.Acquire? then s.permits - 1 else if step.Release? then s.permits + 1 else s.permits
    ensures Do(s, step).size == s.size && Do(s, step).readonly == s.readonly
    ensures step.g in s.at <==> !step.Acquire?
  {}

  lemma CountedStep(s: Pool, step: Step)
    requires Counted(s) && Enabled(s, step)
    ensures Counted(Do(s, step)) && Do(s, step).size == s.size
  {
    HoldersAfter(s, step);
    SlotOfActor(s, step);
    QueueSize(s, step);
    if !step.Acquire? { assert s.at.Keys + {step.g} == s.at.Keys; }
  }

  // A greenlet with the semaphore never blocks on the queue: there is a slot to take while it has
  // none, and room to put back the one it has.
  lemma QueueNeverBlocks(s: Pool, step: Step)
    requires Counted(s) && Reaches(s, step) && !step.Acquire?
    ensures Enabled(s, step)
  {
    if step.Take? {
      SmallerSet(SlotHolders(s), s.at.Keys, step.g);
    } else if step.Put? {
      assert step.g in SlotHolders(s);
    }
  }

  lemma {:induction false} SmallerSet(a: set<Greenlet>, b: set<Greenlet>, g: Greenlet)
    requires a <= b && g in b && g !in a
    ensures |a| < |b|
  {
    assert |b| == |a| + |b - a| by { assert b == a + (b - a); }
    assert g in b - a;
  }

  // The bounded semaphore is never released above its initial value, and an idle pool has all its
  // slots and permits back.
  lemma PermitsReturn(s: Pool)
    requires Counted(s)
    ensures forall g :: g in s.at ==> s.permits < s.size
    ensures s.at == map[] ==> s.permits == s.size && |s.queue| == s.size
  {
    if s.at == map[] { assert SlotHolders(s) == {}; }
  }

  // ----- connections -----

  function Client(p: Phase): Option<Connection> {
    match p
    case Took(c) => c
    case Using(c) => Some(c)
    case Discarding(c) => Some(c)
    case Leaving(c) => c
    case _ => None
  }

  predicate Holds(s: Pool, g: Greenlet, c: Connection) { g in s.at && Client(s.at[g]) == Some(c) }

  predicate Queued(s: Pool, i: int, c: Connection) { 0 <= i < |s.queue| && s.queue[i] == Some(c) }

  // No connection is in two places.
  ghost predicate OnePlace(s: Pool) {
    && (forall g, h, c :: Holds(s, g, c) && Holds(s, h, c) ==> g == h)
    && (forall i, j, c :: Queued(s, i, c) && Queued(s, j, c) ==> i == j)
    && (forall g, i, c :: Holds(s, g, c) ==> !Queued(s, i, c))
  }

  ghost predicate Placed(s: Pool, c: Connection) {
    (exists g :: Holds(s, g, c)) || (exists i :: Queued(s, i, c))
  }

  // The connections with a place are exactly those made and not dropped.
  ghost predicate Accounted(s: Pool) {
    forall c :: Placed(s, c) <==> c in s.made && c !in s.dropped
  }

  lemma HoldsAfter(s: Pool, step: Step, h: Greenlet, c: Connection)
    requires Enabled(s, step) && h != step.g
    ensures Holds(Do(s, step), h, c) <==> Holds(s, h, c)
  {}

  lemma QueuedAfter(s: Pool, step: Step, i: int, c: Connection)
    requires Enabled(s, step)
    ensures step.Take? ==> (Queued(Do(s, step), i, c) <==> i >= 0 && Queued(s, i + 1, c))
    ensures step.Put? ==> (Queued(Do(s, step), i, c) <==> Queued(s, i, c) || (i == |s.queue| && Holds(s, step.g, c)))
    ensures !step.Take? && !step.Put? ==> (Queued(Do(s, step), i, c) <==> Queued(s, i, c))
  {}

  // The connection the acting greenlet holds afterwards.
  lemma HeldAfter(s: Pool, step: Step, c: Connection)
    requires Enabled(s, step)
    ensures Holds(Do(s, step), step.g, c) <==> match step
      case Take(_) => Queued(s, 0, c)
      case Connect(_, x) => c == x
      case Finish(_) => s.readonly && Holds(s, step.g, c)
      case Unusable(_) => false
      case LoggedOut(_) => false
      case Put(_) => false
      case _ => Holds(s, step.g, c)
  {}

  lemma PlacesBound(s: Pool, step: Step, c: Connection)
    requires Enabled(s, step) && Accounted(s)
    ensures Placed(Do(s, step), c) ==> Placed(s, c) || (step.Connect? && c == step.conn)
  {
    var s' := Do(s, step);
    if h :| Holds(s', h, c) {
      if h == step.g { HeldAfter(s, step, c); } else { HoldsAfter(s, step, h, c); }
    } else if i :| Queued(s', i, c) {
      QueuedAfter(s, step, i, c);
    }
  }

  lemma OnePlaceStep(s: Pool, step: Step)
    requires Enabled(s, step) && OnePlace(s) && Accounted(s)
    ensures OnePlace(Do(s, step))
  {
    var s', g := Do(s, step), step.g;
    forall x, y, c | Holds(s', x, c) && Holds(s', y, c) ensures x == y {
      if x != y { NotHeldTwice(s, step, x, y, c); }
    }
    forall i, j, c | Queued(s', i, c) && Queued(s', j, c) ensures i == j {
      QueuedAfter(s, step, i, c);
      QueuedAfter(s, step, j, c);
    }
    forall h, i, c | Holds(s', h, c) ensures !Queued(s', i, c) {
      QueuedAfter(s, step, i, c);
      if h == g { HeldAfter(s, step, c); } else { HoldsAfter(s, step, h, c); }
      if step.Connect? && h == g { assert !Placed(s, c); }
    }
  }

  lemma NotHeldTwice(s: Pool, step: Step, x: Greenlet, y: Greenlet, c: Connection)
    requires Enabled(s, step) && OnePlace(s) && Accounted(s) && x != y
    ensures !(Holds(Do(s, step), x, c) && Holds(Do(s, step), y, c))
  {
    HeldAfter(s, step, c);
    if x != step.g { HoldsAfter(s, step, x, c); }
    if y != step.g { HoldsAfter(s, step, y, c); }
    if step.Connect? && c == step.conn { assert !Placed(s, c); }
  }

  // A step drops the connection its greenlet holds, or none.
  predicate Drops(s: Pool, step: Step, c: Connection) {
    Holds(s, step.g, c) && (step.Unusable? || step.LoggedOut? || (step.Finish? && !s.readonly))
  }

  lemma StaysPlaced(s: Pool, step: Step, c: Connection)
    requires Enabled(s, step) && Placed(s, c) && !Drops(s, step, c)
    ensures Placed(Do(s, step), c)
  {
    var s' := Do(s, step);
    if h :| Holds(s, h, c) {
      if h != step.g {
        HoldsAfter(s, step, h, c);
      } else {
        HeldAfter(s, step, c);
        QueuedAfter(s, step, |s.queue|, c);
      }
    } else if i :| Queued(s, i, c) {
      HeldAfter(s, step, c);
      QueuedAfter(s, step, i, c);
      QueuedAfter(s, step, i - 1, c);
    }
  }

  lemma DroppedIsGone(s: Pool, step: Step, c: Connection)
    requires Enabled(s, step) && OnePlace(s) && Drops(s, step, c)
    ensures !Placed(Do(s, step), c)
  {
    var s' := Do(s, step);
    HeldAfter(s, step, c);
    if h :| Holds(s', h, c) { HoldsAfter(s, step, h, c); }
    if i :| Queued(s', i, c) { QueuedAfter(s, step, i, c); }
  }

  lemma OpenedAndDropped(s: Pool, step: Step, c: Connection)
    requires Enabled(s, step)
    ensures c in Do(s, step).made <==> c in s.made || (step.Connect? && c == step.conn)
    ensures c in Do(s, step).dropped <==> c in s.dropped || Drops(s, step, c)
  {}

  lemma AccountedStep(s: Pool, step: Step)
    requires Enabled(s, step) && OnePlace(s) && Accounted(s) && s.dropped <= s.made
    ensures Accounted(Do(s, step)) && Do(s, step).dropped <= Do(s, step).made
  {
    var s' := Do(s, step);
    forall c ensures Placed(s', c) <==> c in s'.made && c !in s'.dropped {
      OpenedAndDropped(s, step, c);
      PlacesBound(s, step, c);
      if step.Connect? && c == step.conn {
        assert Holds(s', step.g, c);
      } else if Drops(s, step, c) {
        DroppedIsGone(s, step, c);
      } else if Placed(s, c) {
        StaysPlaced(s, step, c);
      }
    }
    forall c | c in s'.dropped ensures c in s'.made {
      OpenedAndDropped(s, step, c);
      if Drops(s, step, c) { assert Placed(s, c); }
    }
  }

  // ----- broken connections -----

  // The pool would give this connection to a caller, now or later.
  ghost predicate Offered(s: Pool, c: Connection) {
    || (exists i :: Queued(s, i, c))
    || (exists g :: Holds(s, g, c) && !s.at[g].Discarding?)
  }

  ghost predicate BrokenStayOut(s: Pool) {
    && (forall i, c :: Queued(s, i, c) && c in s.broken ==> c in s.escaped)
    && (forall g, c :: Holds(s, g, c) && c in s.broken ==> s.at[g].Discarding? || c in s.escaped)
    && s.broken <= s.made && s.escaped <= s.broken
    && (forall g :: g in s.at && s.at[g].Discarding? ==> s.at[g].conn in s.broken)
  }

  lemma BrokenStep(s: Pool, step: Step)
    requires Enabled(s, step) && OnePlace(s) && Accounted(s) && BrokenStayOut(s)
    ensures BrokenStayOut(Do(s, step))
  {
    var s', g := Do(s, step), step.g;
    forall c | c in s'.broken && c !in s.broken ensures c in s'.made {
      assert Holds(s, g, c) && Placed(s, c);
    }
    forall i, c | Queued(s', i, c) && c in s'.broken ensures c in s'.escaped {
      QueuedAfter(s, step, i, c);
      BrokenNow(s, step, c);
    }
    forall h, c | Holds(s', h, c) && c in s'.broken ensures s'.at[h].Discarding? || c in s'.escaped {
      HeldAfter(s, step, c);
      BrokenNow(s, step, c);
      if h != g { HoldsAfter(s, step, h, c); }
    }
  }

  lemma BrokenNow(s: Pool, step: Step, c: Connection)
    requires Enabled(s, step)
    ensures c in Do(s, step).broken <==> c in s.broken || (Holds(s, step.g, c) && (step.Unusable? || step.Discard?))
    ensures c in Do(s, step).escaped <==> c in s.escaped || (Holds(s, step.g, c) && step.CutShort?)
  {}

  // A writable pool only keeps connections across calls when the caller's block, or the logout
  // after an error, was left by an exception that is not of the discard class.
  ghost predicate WritableScoped(s: Pool) {
    !s.readonly ==> forall i, c :: Queued(s, i, c) ==> c in s.kept || c in s.escaped
  }

  ghost predicate LeavingScoped(s: Pool) {
    !s.readonly ==> forall g, c :: Holds(s, g, c) && s.at[g].Leaving? ==> c in s.kept || c in s.escaped
  }

  lemma ScopedStep(s: Pool, step: Step)
    requires Enabled(s, step) && WritableScoped(s) && LeavingScoped(s)
    ensures WritableScoped(Do(s, step)) && LeavingScoped(Do(s, step))
  {
    var s', g := Do(s, step), step.g;
    if !s.readonly {
      forall i, c | Queued(s', i, c) ensures c in s'.kept || c in s'.escaped { QueuedAfter(s, step, i, c); }
      forall h, c | Holds(s', h, c) && s'.at[h].Leaving? ensures c in s'.kept || c in s'.escaped {
        if h != g { HoldsAfter(s, step, h, c); }
      }
    }
  }

  // ----- whole runs -----

  ghost predicate Inv(s: Pool) {
    && Counted(s) && OnePlace(s) && Accounted(s) && s.dropped <= s.made
    && BrokenStayOut(s) && WritableScoped(s) && LeavingScoped(s)
  }

  lemma InvStep(s: Pool, step: Step)
    requires Inv(s) && Enabled(s, step)
    ensures Inv(Do(s, step)) && Do(s, step).size == s.size
  {
    CountedStep(s, step);
    OnePlaceStep(s, step);
    AccountedStep(s, step);
    BrokenStep(s, step);
    ScopedStep(s, step);
  }

  lemma {:induction false} InvRun(states: seq<Pool>, steps: seq<Step>, k: nat)
    requires IsRun(states, steps) && k <= |steps|
    ensures Inv(states[k]) && states[k].size == states[0].size
  {
    if k == 0 {
      assert SlotHolders(states[0]) == {};
    } else {
      InvRun(states, steps, k - 1);
      InvStep(states[k - 1], steps[k - 1]);
    }
  }

  // In every reachable state: only the semaphore can block, connections are accounted for, and an
  // idle pool is whole.
  lemma PoolIsSafe(states: seq<Pool>, steps: seq<Step>, k: nat)
    requires IsRun(states, steps) && k <= |steps|
    ensures forall step :: Reaches(states[k], step) && !step.Acquire? ==> Enabled(states[k], step)
    ensures forall g :: g in states[k].at ==> states[k].permits < states[k].size
    ensures OnePlace(states[k]) && Accounted(states[k])
    ensures states[k].at == map[] ==> states[k].permits == states[0].size && |states[k].queue| == states[0].size
  {
    InvRun(states, steps, k);
    PermitsReturn(states[k]);
    forall step | Reaches(states[k], step) && !step.Acquire? ensures Enabled(states[k], step) {
      QueueNeverBlocks(states[k], step);
    }
  }

  // A connection that saw a discard-class error is offered again only if the logout that follows
  // the error was cut short.
  lemma BrokenNeverOffered(states: seq<Pool>, steps: seq<Step>, k: nat, c: Connection)
    requires IsRun(states, steps) && k <= |steps| && c in states[k].broken && Offered(states[k], c)
    ensures exists i :: 0 <= i < k && steps[i].CutShort? && Holds(states[i], steps[i].g, c)
  {
    InvRun(states, steps, k);
    EscapedWasCutShort(states, steps, k, c);
  }

  lemma {:induction false} EscapedWasCutShort(states: seq<Pool>, steps: seq<Step>, k: nat, c: Connection)
    requires IsRun(states, steps) && k <= |steps| && c in states[k].escaped
    ensures exists i :: 0 <= i < k && steps[i].CutShort? && Holds(states[i], steps[i].g, c)
  {
    if k > 0 {
      BrokenNow(states[k - 1], steps[k - 1], c);
      if c in states[k - 1].escaped { EscapedWasCutShort(states, steps, k - 1, c); }
    }
  }

  // And cutting the logout short does offer it: whoever takes the slot next gets the broken connection.
  lemma CutShortOffersBroken(states: seq<Pool>, steps: seq<Step>, i: nat)
    requires IsRun(states, steps) && i < |steps| && steps[i].CutShort?
    ensures var c := states[i].at[steps[i].g].conn;
      c in states[i + 1].broken && Offered(states[i + 1], c)
  {
    InvRun(states, steps, i);
    assert Holds(states[i + 1], steps[i].g, states[i].at[steps[i].g].conn);
  }

  lemma {:induction false} KeptWasRaised(states: seq<Pool>, steps: seq<Step>, k: nat, c: Connection)
    requires IsRun(states, steps) && k <= |steps| && c in states[k].kept
    ensures exists i :: 0 <= i < k && steps[i].Raise? && Holds(states[i], steps[i].g, c)
  {
    if k > 0 {
      if c in states[k - 1].kept { KeptWasRaised(states, steps, k - 1, c); }
      else { assert steps[k - 1].Raise? && Holds(states[k - 1], steps[k - 1].g, c); }
    }
  }

  // A writable pool has a connection waiting only if a use of it ended in an exception outside the
  // discard class, or in a logout that was cut short.
  lemma WritableConnectionsAreScoped(states: seq<Pool>, steps: seq<Step>, k: nat, j: int, c: Connection)
    requires IsRun(states, steps) && k <= |steps| && !states[k].readonly && Queued(states[k], j, c)
    ensures exists i :: 0 <= i < k && (steps[i].Raise? || steps[i].CutShort?) && Holds(states[i], steps[i].g, c)
  {
    InvRun(states, steps, k);
    if c in states[k].kept { KeptWasRaised(states, steps, k, c); } else { EscapedWasCutShort(states, steps, k, c); }
  }

  // ----- the pool object -----

  // The second state follows from the first by these two steps.
  ghost predicate Path(s: Pool, first: Step, second: Step, t: Pool) {
    Enabled(s, first) && Enabled(Do(s, first), second) && t == Do(Do(s, first), second)
  }

  // How the caller's block can end.
  datatype Exit = Normal | DiscardError(unusable: bool, cutShort: bool) | OtherException

  // The client that goes back after the block.
  function Kept(conn: Connection, exit: Exit, readonly: bool): Option<Connection> {
    match exit
    case Normal => if readonly then Some(conn) else None
    case DiscardError(unusable, cutShort) => if !unusable && cutShort then Some(conn) else None
    case OtherException => Some(conn)
  }

  function LeftBehind(slot: Option<Connection>, made: Option<Connection>, exit: Exit, readonly: bool): Option<Connection> {
    var conn := if slot.Some? then slot else made;
    if conn.None? then None else Kept(conn.value, exit, readonly)
  }

  class CrispinConnectionPool {
    const size: nat
    const readonly: bool
    var queue: seq<Option<Connection>>
    var permits: nat
    ghost var model: Pool

    ghost predicate Valid()
      reads this
    {
      Inv(model) && model.size == size && model.readonly == readonly && model.queue == queue && model.permits == permits
    }

    constructor (size: nat, readonly: bool)
      ensures Valid() && this.size == size && model == NewPool(size, readonly)
      ensures permits == size && queue == seq(size, _ => None)
    {
      this.size, this.readonly, this.permits, this.queue := size, readonly, size, seq(size, _ => None);
      this.model := NewPool(size, readonly);
      new;
      InvRun([model], [], 0);
    }

    // The semaphore is acquired (it would block without permits) and a slot is taken at once.
    method Begin(g: Greenlet) returns (client: Option<Connection>)
      requires Valid() && permits > 0 && g !in model.at
      modifies this
      ensures Valid() && Path(old(model), Acquire(g), Take(g), model) && g in model.at && model.at[g] == Took(client)
      ensures old(queue) != [] && client == old(queue)[0] && queue == old(queue)[1..] && permits == old(permits) - 1
      ensures model.made == old(model.made)
    {
      Advance(Acquire(g));
      permits := permits - 1;
      QueueNeverBlocks(model, Take(g));
      Advance(Take(g));
      client := queue[0];
      queue := queue[1..];
    }

    // A slot without a connection gets a new one; if that fails, the block is not entered. `made`
    // is what _new_connection returns, or None if it raises.
    method Connect(g: Greenlet, client: Option<Connection>, made: Option<Connection>) returns (conn: Option<Connection>)
      requires Valid() && g in model.at && model.at[g] == Took(client) && (made.Some? ==> made.value !in model.made)
      modifies this
      ensures Valid() && queue == old(queue) && permits == old(permits) && g in model.at
      ensures conn == if client.Some? then client else made
      ensures model.at[g] == if conn.Some? then Using(conn.value) else Leaving(None)
      ensures model.made == if client.None? && made.Some? then old(model.made) + {made.value} else old(model.made)
    {
      if client.Some? {
        Advance(Reuse(g));
        conn := client;
      } else if made.Some? {
        Advance(Step.Connect(g, made.value));
        conn := made;
      } else {
        Advance(ConnectFails(g));
        conn := None;
      }
    }

    // A whole `get` that no other greenlet interrupts: one slot moves to the end of the queue with
    // what the exit leaves in it, and the permit comes back.
    method Get(g: Greenlet, made: Option<Connection>, exit: Exit)
      requires Valid() && permits > 0 && g !in model.at && (made.Some? ==> made.value !in model.made)
      modifies this
      ensures Valid() && permits == old(permits) && g !in model.at
      ensures old(queue) != [] && queue == old(queue)[1..] + [LeftBehind(old(queue)[0], made, exit, readonly)]
    {
      var client := Begin(g);
      var conn := Connect(g, client, made);
      var left: Option<Connection> := None;
      if conn.Some? { left := End(g, conn.value, exit); }
      Finally(g, left);
    }

    // The block ends; what becomes of the client.
    method End(g: Greenlet, conn: Connection, exit: Exit) returns (client: Option<Connection>)
      requires Valid() && g in model.at && model.at[g] == Using(conn)
      modifies this
      ensures Valid() && queue == old(queue) && permits == old(permits) && g in model.at && model.at[g] == Leaving(client)
      ensures client == Kept(conn, exit, readonly) && model.made == old(model.made)
    {
      match exit {
        case Normal =>
          Advance(Finish(g));
          client := if readonly then Some(conn) else None;
        case OtherException =>
          Advance(Raise(g));
          client := Some(conn);
        case DiscardError(unusable, cutShort) =>
          if unusable {
            Advance(Unusable(g));
            client := None;
          } else {
            Advance(Discard(g));
            Advance(if cutShort then CutShort(g) else LoggedOut(g));
            client := if cutShort then Some(conn) else None;
          }
      }
    }

    // `finally`: the put finds room, the release stays within the bound.
    method Finally(g: Greenlet, client: Option<Connection>)
      requires Valid() && g in model.at && model.at[g] == Leaving(client)
      modifies this
      ensures Valid() && Path(old(model), Put(g), Release(g), model) && g !in model.at
      ensures queue == old(queue) + [client] && |queue| <= size && permits == old(permits) + 1 <= size
    {
      QueueNeverBlocks(model, Put(g));
      Advance(Put(g));
      queue := queue + [client];
      Advance(Release(g));
      permits := permits + 1;
    }

    ghost method Advance(step: Step)
      requires Inv(model) && Enabled(model, step)
      modifies this`model
      ensures model == Do(old(model), step) && Inv(model) && model.readonly == old(model.readonly) && model.size == old(model.size)
    {
      InvStep(model, step);
      QueueSize(model, step);
      model := Do(model, step);
    }
  }
}
