/** What each statement and handler does to the table, row by row, and what that means for
  the online list and over histories. */
module RegistryEffects {
  import opened Wrappers
  import opened Allocator
  import opened Registry
  import opened RegistryRuns

  /** Rows outside the set are there or not as before, and unchanged. */
  ghost predicate SameElsewhere(rows: Rows, after: Rows, named: set<string>) {
    forall j :: j !in named ==> (j in after <==> j in rows) && (j in rows ==> after[j] == rows[j])
  }

  /** Identity, key and address of a row. */
  ghost predicate SamePeer(r: Row, s: Row) {
    r.network == s.network && r.machine == s.machine && r.key == s.key && r.vip == s.vip
  }

  // ---- Statements ----

  lemma DeleteRemoves(rows: Rows, i: string, newId: string)
    ensures var next := Committed(rows, Delete(i), newId);
            i !in next && SameElsewhere(rows, next, {i})
  {}

  lemma DeleteMachineRemoves(rows: Rows, network: string, machine: string, newId: string)
    ensures var next := Committed(rows, DeleteMachine(network, machine), newId);
            && (forall j :: j in next ==> !(next[j].network == network && next[j].machine == machine))
            && forall j :: j in rows && !(rows[j].network == network && rows[j].machine == machine) ==>
                 j in next && next[j] == rows[j]
    ensures Committed(rows, DeleteMachine(network, machine), newId).Keys <= rows.Keys
  {}

  lemma RejectMarks(rows: Rows, i: string, newId: string)
    ensures var next := Committed(rows, Reject(i), newId);
            && SameElsewhere(rows, next, {i}) && (i in next <==> i in rows)
            && (i in rows ==> next[i].status == Rejected && SamePeer(next[i], rows[i]) && next[i].online == rows[i].online)
  {}

  lemma HeartbeatMarks(rows: Rows, i: string, newId: string)
    ensures var next := Committed(rows, Heartbeat(i), newId);
            && SameElsewhere(rows, next, {i}) && (i in next <==> i in rows)
            && (i in rows ==> next[i].online && SamePeer(next[i], rows[i]) && next[i].status == rows[i].status)
  {}

  lemma OfflineMarks(rows: Rows, ids: set<string>, newId: string)
    ensures var next := Committed(rows, MarkOffline(ids), newId);
            && SameElsewhere(rows, next, ids) && next.Keys == rows.Keys
            && forall j :: j in ids && j in rows ==>
                 !next[j].online && SamePeer(next[j], rows[j]) && next[j].status == rows[j].status
  {}

  /** Another row of the network has the address. */
  ghost predicate Taken(rows: Rows, i: string, network: string, vip: uint32) {
    vip != 0 && exists j :: j in rows && j != i && rows[j].network == network && rows[j].vip == vip
  }

  lemma ApproveAssigns(rows: Rows, i: string, vip: uint32, newId: string)
    ensures var next := Committed(rows, Approve(i, vip), newId);
            if i !in rows || Taken(rows, i, rows[i].network, vip) then next == rows
            else
              && SameElsewhere(rows, next, {i}) && i in next
              && next[i].status == Approved && next[i].vip == vip && !next[i].online
              && next[i].network == rows[i].network && next[i].machine == rows[i].machine && next[i].key == rows[i].key
  {
    if i in rows {
      assert Clashes(rows, i, rows[i].(status := Approved, vip := vip, online := false)) == Taken(rows, i, rows[i].network, vip);
    }
  }

  /** A machine that is known gets its key changed and nothing else; a new one gets a pending
    row without address. */
  lemma PendingAdds(rows: Rows, network: string, machine: string, key: string, newId: string)
    requires MachinesUnique(rows) && newId !in rows
    ensures var next := Committed(rows, RegisterPending(network, machine, key), newId);
            && (forall i :: i in rows && rows[i].machine == machine ==>
                  && SameElsewhere(rows, next, {i}) && i in next && next[i].key == key
                  && next[i].network == rows[i].network && next[i].machine == machine && next[i].vip == rows[i].vip
                  && next[i].status == rows[i].status && next[i].online == rows[i].online)
            && ((forall i :: i in rows ==> rows[i].machine != machine) ==>
                  && SameElsewhere(rows, next, {newId}) && newId in next
                  && next[newId].network == network && next[newId].machine == machine && next[newId].key == key
                  && next[newId].vip == 0 && next[newId].status == Pending && !next[newId].online)
  {
    forall i | i in rows && rows[i].machine == machine
      ensures Holder(rows, machine) == Some(i)
    {
      HolderIsUnique(rows, i);
    }
  }

  /** The upsert: a known machine keeps id and status, a new one takes the given status; and
    nothing at all happens when another row of the network has the address. */
  lemma RegisterUpserts(rows: Rows, network: string, machine: string, key: string, vip: uint32, status: Status, newId: string)
    requires MachinesUnique(rows) && newId !in rows
    ensures var next := Committed(rows, Register(network, machine, key, vip, status), newId);
            && (forall i :: i in rows && rows[i].machine == machine ==>
                  if Taken(rows, i, network, vip) then next == rows
                  else
                    && SameElsewhere(rows, next, {i}) && i in next && next[i].status == rows[i].status
                    && next[i].network == network && next[i].machine == machine && next[i].key == key
                    && next[i].vip == vip && next[i].online)
            && ((forall i :: i in rows ==> rows[i].machine != machine) ==>
                  if Taken(rows, newId, network, vip) then next == rows
                  else
                    && SameElsewhere(rows, next, {newId}) && newId in next && next[newId].status == status
                    && next[newId].network == network && next[newId].machine == machine && next[newId].key == key
                    && next[newId].vip == vip && next[newId].online)
  {
    forall i | i in rows && rows[i].machine == machine
      ensures Holder(rows, machine) == Some(i)
    {
      HolderIsUnique(rows, i);
    }
  }

  // ---- The online list ----

  /** Kicked, rejected and offline peers leave it, and nobody else does. */
  lemma OnlineListLoses(rows: Rows, i: string, ids: set<string>, newId: string, network: string)
    ensures OnlinePeers(Committed(rows, Delete(i), newId), network) == OnlinePeers(rows, network) - {i}
    ensures OnlinePeers(Committed(rows, Reject(i), newId), network) == OnlinePeers(rows, network) - {i}
    ensures OnlinePeers(Committed(rows, MarkOffline(ids), newId), network) == OnlinePeers(rows, network) - ids
  {
    DeleteRemoves(rows, i, newId);
    RejectMarks(rows, i, newId);
    OfflineMarks(rows, ids, newId);
  }

  /** A heartbeat adds its peer if it is stored as approved. */
  lemma OnlineListGains(rows: Rows, i: string, newId: string, network: string)
    ensures OnlinePeers(Committed(rows, Heartbeat(i), newId), network)
         == OnlinePeers(rows, network)
            + (if i in rows && rows[i].network == network && rows[i].status == Approved then {i} else {})
  {
    HeartbeatMarks(rows, i, newId);
  }

  /** A kicked peer's address is free again in its network. */
  lemma KickFreesAddress(rows: Rows, i: string, newId: string)
    requires Unique(rows) && i in rows && rows[i].vip != 0
    ensures rows[i].vip !in Addresses(Listed(Committed(rows, Delete(i), newId), rows[i].network))
  {
    var next := Committed(rows, Delete(i), newId);
    forall j | j in Listed(next, rows[i].network)
      ensures next[j].vip != rows[i].vip
    {
      assert SameAddress(rows[i], rows[j]) == (rows[i].vip == rows[j].vip);
    }
  }

  // ---- Over histories ----

  /** A kicked peer is gone, and so in no online list, until an event makes a row with that id. */
  lemma {:induction false} KickedStaysGone(nets: Networks, tables: seq<Rows>, events: seq<Event>, m: nat, n: nat, i: string, network: string)
    requires History(nets, tables, events) && m < n < |tables|
    requires events[m].Statement? && events[m].write == Delete(i)
    requires forall k :: m < k < n ==> events[k].newId != i
    ensures i !in tables[n] && i !in OnlinePeers(tables[n], network)
  {
    if n == m + 1 {
      DeleteRemoves(tables[m], i, events[m].newId);
    } else {
      KickedStaysGone(nets, tables, events, m, n - 1, i, network);
      MissingStaysMissing(nets, tables[n - 1], events[n - 1], i);
    }
  }

  /** The machine that an event may bring into a network. */
  ghost predicate Brings(e: Event, network: string, machine: string) {
    match e
    case Statement(w, _) => w.RegisterPending? && w.network == network && w.machine == machine
    case Handle(q, _) =>
      && q.network == network && !q.ApproveMember?
      && (q.JoinAuto? ==> |q.key| >= KEY_PREFIX && machine == JoinMachine(q.key)) && (q.RegisterPeer? ==> machine == q.machine)
  }

  ghost predicate Absent(rows: Rows, network: string, machine: string) {
    forall j :: j in rows ==> !(rows[j].network == network && rows[j].machine == machine)
  }

  lemma CommitKeepsAbsent(rows: Rows, w: Write, newId: string, network: string, machine: string)
    requires Absent(rows, network, machine)
    requires w.Register? || w.RegisterPending? ==> w.network != network || w.machine != machine
    ensures Absent(Committed(rows, w, newId), network, machine)
  {}

  lemma EventKeepsAbsent(nets: Networks, rows: Rows, e: Event, network: string, machine: string)
    requires Legal(nets, rows, e) && Absent(rows, network, machine) && !Brings(e, network, machine)
    ensures Absent(Applied(nets, rows, e), network, machine)
  {
    match e
    case Statement(w, newId) => CommitKeepsAbsent(rows, w, newId, network, machine);
    case Handle(q, newId) =>
      if Admitted(nets, rows, q) && Decision(nets, Listed(rows, q.network), q).Some? {
        CommitKeepsAbsent(rows, Decision(nets, Listed(rows, q.network), q).value, newId, network, machine);
      }
  }

  /** An unregistered machine is absent from its network until it registers or joins there. */
  lemma {:induction false} UnregisteredStaysGone(nets: Networks, tables: seq<Rows>, events: seq<Event>, m: nat, n: nat, network: string, machine: string)
    requires History(nets, tables, events) && m < n < |tables|
    requires events[m].Statement? && events[m].write == DeleteMachine(network, machine)
    requires forall k :: m < k < n ==> !Brings(events[k], network, machine)
    ensures Absent(tables[n], network, machine)
  {
    if n == m + 1 {
      DeleteMachineRemoves(tables[m], network, machine, events[m].newId);
    } else {
      UnregisteredStaysGone(nets, tables, events, m, n - 1, network, machine);
      EventKeepsAbsent(nets, tables[n - 1], events[n - 1], network, machine);
    }
  }

  // ---- Handlers that find nothing to do ----

  /** A device that joins again, and an approval of a row that is approved, blank, missing or
    in another network, change nothing. */
  lemma NothingToDo(nets: Networks, rows: Rows, network: string, key: string, i: string, newId: string)
    ensures (exists j :: j in rows && rows[j].network == network && rows[j].key == key) ==>
              Handled(nets, rows, JoinAuto(network, key), newId) == rows
    ensures i !in rows || rows[i].network != network || rows[i].status == Approved || rows[i].status == Blank ==>
              Handled(nets, rows, ApproveMember(network, i), newId) == rows
  {}
}
