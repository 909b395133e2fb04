// The sync process itself (inbox/mailsync/service.py), as the code updates its fields, over a
// shared table of account rows with the commit hook of inbox/models/account.py.
module SyncService {
  import opened Common
  import opened AccountOwnership

  // The account rows and the event queues that commits feed.
  class AccountTable {
    var rows: map<AccountId, Row>
    var privateQueues: map<Host, seq<AccountId>>
    var sharedQueue: seq<AccountId>

    constructor ()
      ensures rows == map[] && privateQueues == map[] && sharedQueue == []
    {
      rows, privateQueues, sharedQueue := map[], map[], [];
    }

    // The part of the machine state that lives outside the processes.
    ghost function AsState(): State
      reads this
    {
      State(rows, map[], map[], privateQueues, sharedQueue)
    }

    method CommitRow(a: AccountId, row: Row)
      modifies this
      ensures AsState() == Commit(old(AsState()), a, row)
      ensures rows == old(rows)[a := row]
      // An unchanged row tells nobody; a changed one tells the owner that has to give up, or with
      // nobody syncing an enabled account the desired host, or everybody if there is none.
      ensures a in old(rows) && old(rows)[a] == row ==> privateQueues == old(privateQueues) && sharedQueue == old(sharedQueue)
      ensures !(a in old(rows) && old(rows)[a] == row) ==>
        && sharedQueue == old(sharedQueue) + (if row.syncHost == None && row.shouldRun && row.desired == None then [a] else [])
        && forall h: Host :: Queue(AsState(), h) == Queue(old(AsState()), h)
             + (if row.syncHost == Some(h) && (!row.shouldRun || (row.desired != None && row.desired != Some(h))) then [a]
                else if row.syncHost == None && row.shouldRun && row.desired == Some(h) then [a] else [])
    {
      var changed := a !in rows || rows[a] != row;
      rows := rows[a := row];
      if changed {
        match RouteFor(row)
        case Nobody =>
        case Private(h) =>
          privateQueues := privateQueues[h := (if h in privateQueues then privateQueues[h] else []) + [a]];
        case Shared =>
          sharedQueue := sharedQueue + [a];
      }
    }
  }

  // Which monitors an account gets: its sync_email/sync_contacts/sync_events flags together with
  // what its provider offers.
  datatype MonitorKinds = MonitorKinds(email: bool, contacts: bool, events: bool)

  // What goes wrong in a start: an exception after the first `after` of the three kinds of monitor,
  // or from the commit.
  datatype StartFault = NoFault | MonitorRaises(after: nat) | CommitRaises

  // The monitors that exist when the start is over.
  function Made(kinds: MonitorKinds, fault: StartFault): MonitorKinds {
    match fault
    case MonitorRaises(n) => MonitorKinds(kinds.email && n >= 1, kinds.contacts && n >= 2, kinds.events && n >= 3)
    case _ => kinds
  }

  datatype StopOutcome = Stopped | NotOwner | NoSuchAccount | ReleaseRaised

  // The row after start_sync has tried to claim it.
  function Claimed(row: Row, p: Host): Row {
    if Claimable(row, p) then row.(syncHost := Some(p)) else row
  }

  function Claims(rows: map<AccountId, Row>, accounts: set<AccountId>, p: Host): map<AccountId, Row> {
    map a | a in rows :: if a in accounts then Claimed(rows[a], p) else rows[a]
  }

  function Claimables(rows: map<AccountId, Row>, accounts: set<AccountId>, p: Host): set<AccountId> {
    set a | a in accounts && a in rows && Claimable(rows[a], p)
  }

  lemma ClaimsNone(rows: map<AccountId, Row>, p: Host)
    ensures Claims(rows, {}, p) == rows && Claimables(rows, {}, p) == {}
  {}

  lemma ClaimsMore(rows: map<AccountId, Row>, done: set<AccountId>, a: AccountId, p: Host)
    requires a !in done
    ensures Claims(Claims(rows, done, p), {a}, p) == Claims(rows, done + {a}, p)
    ensures Claimables(rows, done, p) + Claimables(Claims(rows, done, p), {a}, p) == Claimables(rows, done + {a}, p)
  {}

  class SyncService {
    const processIdentifier: Host
    const table: AccountTable
    var syncingAccounts: set<AccountId>
    var emailSyncMonitors: set<AccountId>
    var contactSyncMonitors: set<AccountId>
    var eventSyncMonitors: set<AccountId>

    constructor (processIdentifier: Host, table: AccountTable)
      ensures this.processIdentifier == processIdentifier && this.table == table
      ensures Valid() && syncingAccounts == {}
    {
      this.processIdentifier, this.table := processIdentifier, table;
      syncingAccounts, emailSyncMonitors, contactSyncMonitors, eventSyncMonitors := {}, {}, {}, {};
    }

    ghost function Monitors(): set<AccountId>
      reads this
    {
      emailSyncMonitors + contactSyncMonitors + eventSyncMonitors
    }

    ghost function Wants(): set<AccountId>
      reads this, table
    {
      Wanted(table.AsState(), processIdentifier)
    }

    // What the process believes it syncs, it owns; and only that has monitors.
    ghost predicate Valid()
      reads this, table
    {
      && syncingAccounts <= Owned(table.AsState(), processIdentifier)
      && Monitors() <= syncingAccounts
    }

    // start_sync. A start that raises half-way returns False, but its session commits the claim; a
    // commit that raises rolls the row back, but not the fields of the process.
    method StartSync(a: AccountId, kinds: MonitorKinds, fault: StartFault) returns (started: bool)
      requires Valid()
      modifies this, table
      ensures var passes := a in old(table.rows) && Claimable(old(table.rows)[a], processIdentifier) && a !in old(syncingAccounts);
        && (started <==> passes && fault == NoFault)
        && (passes ==>
              && syncingAccounts == old(syncingAccounts) + (if fault.MonitorRaises? then {} else {a})
              && emailSyncMonitors == old(emailSyncMonitors) + (if Made(kinds, fault).email then {a} else {})
              && contactSyncMonitors == old(contactSyncMonitors) + (if Made(kinds, fault).contacts then {a} else {})
              && eventSyncMonitors == old(eventSyncMonitors) + (if Made(kinds, fault).events then {a} else {})
              && table.AsState() == (if fault == CommitRaises then old(table.AsState())
                                     else Commit(old(table.AsState()), a, old(table.rows)[a].(syncHost := Some(processIdentifier))))
              && table.rows == (if fault == CommitRaises then old(table.rows)
                                else old(table.rows)[a := old(table.rows)[a].(syncHost := Some(processIdentifier))]))
        && (!passes ==>
              && table.AsState() == old(table.AsState()) && syncingAccounts == old(syncingAccounts)
              && emailSyncMonitors == old(emailSyncMonitors) && contactSyncMonitors == old(contactSyncMonitors)
              && eventSyncMonitors == old(eventSyncMonitors))
        && (Valid() <==> !passes || match fault
              case NoFault => true
              case MonitorRaises(_) => Made(kinds, fault) == MonitorKinds(false, false, false)
              case CommitRaises => old(table.rows)[a].syncHost == Some(processIdentifier))
    {
      if a !in table.rows { return false; }
      var acc := table.rows[a];
      if !acc.shouldRun { return false; }
      if acc.desired != None && acc.desired != Some(processIdentifier) { return false; }
      if acc.syncHost != None && acc.syncHost != Some(processIdentifier) { return false; }
      if a in syncingAccounts { return false; }
      ClaimAndStart(a, kinds, fault);
      return fault == NoFault;
    }

    // The part of start_sync behind its checks.
    method ClaimAndStart(a: AccountId, kinds: MonitorKinds, fault: StartFault)
      requires a in table.rows
      modifies this, table
      ensures syncingAccounts == old(syncingAccounts) + (if fault.MonitorRaises? then {} else {a})
      ensures emailSyncMonitors == old(emailSyncMonitors) + (if Made(kinds, fault).email then {a} else {})
      ensures contactSyncMonitors == old(contactSyncMonitors) + (if Made(kinds, fault).contacts then {a} else {})
      ensures eventSyncMonitors == old(eventSyncMonitors) + (if Made(kinds, fault).events then {a} else {})
      ensures table.AsState() == if fault == CommitRaises then old(table.AsState())
                                 else Commit(old(table.AsState()), a, old(table.rows)[a].(syncHost := Some(processIdentifier)))
      ensures table.rows == if fault == CommitRaises then old(table.rows)
                            else old(table.rows)[a := old(table.rows)[a].(syncHost := Some(processIdentifier))]
    {
      var acc := table.rows[a].(syncHost := Some(processIdentifier));
      StartMonitors(a, Made(kinds, fault));
      if fault.MonitorRaises? {
        table.CommitRow(a, acc);
        return;
      }
      syncingAccounts := syncingAccounts + {a};
      if fault == CommitRaises { return; }
      table.CommitRow(a, acc);
    }

    method StartMonitors(a: AccountId, kinds: MonitorKinds)
      modifies this`emailSyncMonitors, this`contactSyncMonitors, this`eventSyncMonitors
      ensures emailSyncMonitors == old(emailSyncMonitors) + (if kinds.email then {a} else {})
      ensures contactSyncMonitors == old(contactSyncMonitors) + (if kinds.contacts then {a} else {})
      ensures eventSyncMonitors == old(eventSyncMonitors) + (if kinds.events then {a} else {})
    {
      if kinds.email { emailSyncMonitors := emailSyncMonitors + {a}; }
      if kinds.contacts { contactSyncMonitors := contactSyncMonitors + {a}; }
      if kinds.events { eventSyncMonitors := eventSyncMonitors + {a}; }
    }

    // stop_sync
    method StopSync(a: AccountId, releaseRaises: bool) returns (outcome: StopOutcome)
      requires Valid()
      modifies this, table
      ensures Valid()
      ensures a !in Monitors() && Monitors() == old(Monitors()) - {a}
      ensures syncingAccounts == if outcome == ReleaseRaised then old(syncingAccounts) else old(syncingAccounts) - {a}
      ensures outcome == NoSuchAccount <==> a !in old(table.rows)
      ensures outcome == ReleaseRaised <==> a in old(table.rows) && releaseRaises
      ensures outcome == Stopped <==> a in old(table.rows) && !releaseRaises && old(table.rows)[a].syncHost == Some(processIdentifier)
      ensures table.rows == if outcome == Stopped then old(table.rows)[a := old(table.rows)[a].(syncHost := None)]
                            else old(table.rows)
      ensures outcome == Stopped ==> table.AsState() == Commit(old(table.AsState()), a, Released(old(table.rows)[a], processIdentifier))
      ensures outcome != Stopped ==> table.AsState() == old(table.AsState())
    {
      emailSyncMonitors := emailSyncMonitors - {a};
      contactSyncMonitors := contactSyncMonitors - {a};
      eventSyncMonitors := eventSyncMonitors - {a};
      if a !in table.rows {
        // `acc.sync_should_run` raises on a missing row.
        return NoSuchAccount;
      }
      if releaseRaises { return ReleaseRaised; }
      if table.rows[a].syncHost != Some(processIdentifier) {
        syncingAccounts := syncingAccounts - {a};
        return NotOwner;
      }
      table.CommitRow(a, table.rows[a].(syncHost := None));
      syncingAccounts := syncingAccounts - {a};
      return Stopped;
    }

    // One round of the first loop of poll.
    method StartOne(a: AccountId, kinds: MonitorKinds)
      requires Valid()
      modifies this, table
      ensures Valid()
      ensures syncingAccounts == old(syncingAccounts) + Claimables(old(table.rows), {a}, processIdentifier)
      ensures table.rows == Claims(old(table.rows), {a}, processIdentifier)
    {
      if a !in syncingAccounts { var _ := StartSync(a, kinds, NoFault); }
    }

    // The first loop of poll, for any snapshot: exactly the accounts that can still be claimed are.
    method StartAll(startAccounts: set<AccountId>, kinds: map<AccountId, MonitorKinds>)
      requires Valid()
      modifies this, table
      ensures Valid()
      ensures syncingAccounts == old(syncingAccounts) + Claimables(old(table.rows), startAccounts, processIdentifier)
      ensures table.rows == Claims(old(table.rows), startAccounts, processIdentifier)
    {
      var todo, done: set<AccountId> := startAccounts, {};
      ClaimsNone(table.rows, processIdentifier);
      while todo != {}
        invariant Valid() && done + todo == startAccounts && done !! todo
        invariant syncingAccounts == old(syncingAccounts) + Claimables(old(table.rows), done, processIdentifier)
        invariant table.rows == Claims(old(table.rows), done, processIdentifier)
        decreases |todo|
      {
        var a :| a in todo;
        ClaimsMore(old(table.rows), done, a, processIdentifier);
        StartOne(a, if a in kinds then kinds[a] else MonitorKinds(true, true, true));
        todo, done := todo - {a}, done + {a};
      }
      assert done == startAccounts;
    }

    // The second loop of poll.
    method StopAll(stopAccounts: set<AccountId>)
      requires Valid() && stopAccounts <= table.rows.Keys
      modifies this, table
      ensures Valid() && syncingAccounts == old(syncingAccounts) - stopAccounts
      ensures table.rows.Keys == old(table.rows.Keys)
      ensures forall a :: a in table.rows ==>
        table.rows[a] == if a in stopAccounts then Released(old(table.rows)[a], processIdentifier) else old(table.rows)[a]
    {
      var todo := stopAccounts;
      while todo != {}
        invariant Valid() && todo <= stopAccounts <= table.rows.Keys == old(table.rows.Keys)
        invariant syncingAccounts == old(syncingAccounts) - (stopAccounts - todo)
        invariant forall a :: a in table.rows ==>
          table.rows[a] == if a in stopAccounts && a !in todo then Released(old(table.rows)[a], processIdentifier)
                           else old(table.rows)[a]
        decreases |todo|
      {
        var a :| a in todo;
        todo := todo - {a};
        var _ := StopSync(a, false);
      }
    }

    // A poll on a snapshot that may be stale: the process ends up syncing the accounts of the
    // snapshot that it synced before or could claim, and owning nothing outside the snapshot. On a
    // current snapshot it ends up syncing and owning exactly the snapshot. Rows of others stay.
    method Poll(startAccounts: set<AccountId>, kinds: map<AccountId, MonitorKinds>)
      requires Valid()
      modifies this, table
      ensures Valid()
      ensures syncingAccounts == set a | a in startAccounts && (a in old(syncingAccounts)
                || (a in old(table.rows) && Claimable(old(table.rows)[a], processIdentifier)))
      ensures Owned(table.AsState(), processIdentifier) <= startAccounts
      ensures startAccounts == old(Wants()) ==> syncingAccounts == startAccounts == Owned(table.AsState(), processIdentifier)
      ensures table.rows.Keys == old(table.rows.Keys)
      ensures forall a :: a in table.rows ==>
        table.rows[a] == if a in startAccounts then Claimed(old(table.rows)[a], processIdentifier)
                         else Released(old(table.rows)[a], processIdentifier)
    {
      StartAll(startAccounts, kinds);
      var owned := set a | a in table.rows && table.rows[a].syncHost == Some(processIdentifier);
      StopAll(owned - startAccounts);
    }

    method FlushPrivateQueue()
      modifies table`privateQueues
      ensures Queue(table.AsState(), processIdentifier) == []
      ensures forall h :: h != processIdentifier ==> Queue(table.AsState(), h) == old(Queue(table.AsState(), h))
    {
      while processIdentifier in table.privateQueues && table.privateQueues[processIdentifier] != []
        invariant forall h :: h != processIdentifier ==> Queue(table.AsState(), h) == old(Queue(table.AsState(), h))
        decreases |Queue(table.AsState(), processIdentifier)|
      {
        table.privateQueues := table.privateQueues[processIdentifier := table.privateQueues[processIdentifier][1..]];
      }
    }
  }
}
