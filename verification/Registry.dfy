/** The peers table: server/internal/database/queries/peers.go and its two unique
  indexes, as statements on a row map, and the handlers that write through it.

  An address is a uint32; 0 stands for the placeholder 0.0.0.0 of a peer that has
  none yet. */
module Registry {
  import opened Wrappers
  import opened Allocator

  /** The stored status; Blank is the empty string, which a scan reads as approved. */
  datatype Status = Blank | Approved | Pending | Rejected

  datatype Row = Row(network: string, machine: string, key: string, vip: uint32, status: Status, online: bool)

  type Rows = map<string, Row>

  /** Networks by id; their CIDRs do not change. */
  type Networks = nets: map<string, IPNet> | forall n :: n in nets ==> nets[n].prefix <= 32 witness map[]

  function Scanned(s: Status): Status {
    if s.Blank? then Approved else s
  }

  // ---- The unique indexes ----

  ghost predicate MachinesUnique(rows: Rows) {
    forall i, j :: i in rows && j in rows && rows[i].machine == rows[j].machine ==> i == j
  }

  predicate SameAddress(r: Row, s: Row) {
    r.network == s.network && r.vip == s.vip
  }

  /** The partial index: real addresses are unique per network. */
  ghost predicate AddressesUnique(rows: Rows) {
    forall i, j :: i in rows && j in rows && i != j && SameAddress(rows[i], rows[j]) ==> rows[i].vip == 0
  }

  ghost predicate Unique(rows: Rows) {
    MachinesUnique(rows) && AddressesUnique(rows)
  }

  /** Writing r at id would break the partial index. */
  predicate Clashes(rows: Rows, id: string, r: Row) {
    r.vip != 0 && exists j :: j in rows && j != id && SameAddress(rows[j], r)
  }

  ghost function Holder(rows: Rows, machine: string): Option<string> {
    if exists i :: i in rows && rows[i].machine == machine
    then Some(var i :| i in rows && rows[i].machine == machine; i) else None
  }

  // ---- Statements ----

  datatype Write =
    | Register(network: string, machine: string, key: string, vip: uint32, status: Status)
    | RegisterPending(network: string, machine: string, key: string)
    | Approve(id: string, vip: uint32)
    | Reject(id: string)
    | Delete(id: string)
    | DeleteMachine(network: string, machine: string)
    | Heartbeat(id: string)
    | MarkOffline(ids: set<string>)

  function Put(rows: Rows, id: string, r: Row): Rows {
    if Clashes(rows, id, r) then rows else rows[id := r]
  }

  /** The table after a statement; a statement that meets a missing row or violates
    the index changes nothing.  newId is the id a new row would get. */
  ghost function Committed(rows: Rows, w: Write, newId: string): Rows {
    match w
    case Register(n, m, k, vip, status) =>
      (match Holder(rows, m)
       case Some(i) => Put(rows, i, rows[i].(network := n, key := k, vip := vip, online := true))
       case None => Put(rows, newId, Row(n, m, k, vip, status, true)))
    case RegisterPending(n, m, k) =>
      (match Holder(rows, m)
       case Some(i) => rows[i := rows[i].(key := k)]
       case None => rows[newId := Row(n, m, k, 0, Pending, false)])
    case Approve(i, vip) =>
      if i in rows then Put(rows, i, rows[i].(status := Approved, vip := vip, online := false)) else rows
    case Reject(i) => if i in rows then rows[i := rows[i].(status := Rejected)] else rows
    case Delete(i) => rows - {i}
    case DeleteMachine(n, m) => map i | i in rows && !(rows[i].network == n && rows[i].machine == m) :: rows[i]
    case Heartbeat(i) => if i in rows then rows[i := rows[i].(online := true)] else rows
    case MarkOffline(ids) => map i | i in rows :: if i in ids then rows[i].(online := false) else rows[i]
  }

  lemma PutKeepsUnique(rows: Rows, id: string, r: Row)
    requires Unique(rows) && forall i :: i in rows && rows[i].machine == r.machine ==> i == id
    ensures Unique(Put(rows, id, r))
  {}

  lemma RegisterKeepsUnique(rows: Rows, w: Write, newId: string)
    requires Unique(rows) && newId !in rows && (w.Register? || w.RegisterPending?)
    ensures Unique(Committed(rows, w, newId))
  {
    var h := Holder(rows, w.machine);
    if w.Register? {
      if h.Some? {
        PutKeepsUnique(rows, h.value, rows[h.value].(network := w.network, key := w.key, vip := w.vip, online := true));
      } else {
        PutKeepsUnique(rows, newId, Row(w.network, w.machine, w.key, w.vip, w.status, true));
      }
    }
  }

  /** Every statement keeps both indexes, whatever was decided before it ran. */
  lemma CommitKeepsUnique(rows: Rows, w: Write, newId: string)
    requires Unique(rows) && newId !in rows
    ensures Unique(Committed(rows, w, newId))
  {
    match w
    case Register(_, _, _, _, _) => RegisterKeepsUnique(rows, w, newId);
    case RegisterPending(_, _, _) => RegisterKeepsUnique(rows, w, newId);
    case Approve(i, vip) =>
      if i in rows {
        PutKeepsUnique(rows, i, rows[i].(status := Approved, vip := vip, online := false));
      }
    case _ =>
  }

  // ---- What the handlers decide from a snapshot ----

  function Listed(rows: Rows, network: string): Rows {
    map i | i in rows && rows[i].network == network :: rows[i]
  }

  ghost function Addresses(snapshot: Rows): set<uint32> {
    set i | i in snapshot :: snapshot[i].vip
  }

  /** RegisterPeer: keep the machine's own address unless another row has it too,
    else allocate.  The placeholder counts as an address here. */
  ghost function RegisterChoice(net: IPNet, snapshot: Rows, machine: string): Option<uint32>
    requires net.prefix <= 32
  {
    match Holder(snapshot, machine)
    case Some(i) =>
      if exists j :: j in snapshot && snapshot[j].machine != machine && snapshot[j].vip == snapshot[i].vip
      then Allocate(net, Addresses(snapshot)) else Some(snapshot[i].vip)
    case None => Allocate(net, Addresses(snapshot))
  }

  /** Join and ApproveMember: allocate among the real addresses. */
  ghost function FreshChoice(net: IPNet, snapshot: Rows): Option<uint32>
    requires net.prefix <= 32
  {
    Allocate(net, Addresses(snapshot) - {0})
  }

  // ---- Handlers as list, decide and write ----

  datatype Request =
    | RegisterPeer(network: string, machine: string, key: string)
    | JoinAuto(network: string, key: string)
    | ApproveMember(network: string, id: string)

  const KEY_PREFIX: nat := 12

  /** The machine id that Join derives from a public key, which it takes to have twelve
    bytes. */
  function JoinMachine(key: string): string
    requires |key| >= KEY_PREFIX
  {
    "join_" + key[..KEY_PREFIX]
  }

  ghost predicate WellFormed(nets: Networks, q: Request) {
    q.network in nets && (q.JoinAuto? ==> |q.key| >= KEY_PREFIX)
  }

  /** The checks a handler makes before it lists the network. */
  ghost predicate Admitted(nets: Networks, rows: Rows, q: Request) {
    && WellFormed(nets, q)
    && match q
       case RegisterPeer(_, _, _) => true
       case JoinAuto(n, k) => (forall i :: i in rows && rows[i].network == n ==> rows[i].key != k)
       case ApproveMember(n, i) => i in rows && rows[i].network == n && Scanned(rows[i].status) != Approved
  }

  /** The statement a handler issues; RegisterPeer leaves the status of a new row
    blank. */
  ghost function Decision(nets: Networks, snapshot: Rows, q: Request): Option<Write>
    requires WellFormed(nets, q)
  {
    var net := nets[q.network];
    match q
    case RegisterPeer(n, m, k) =>
      (match RegisterChoice(net, snapshot, m)
       case None => None
       case Some(vip) => Some(Register(n, m, k, vip, Blank)))
    case JoinAuto(n, k) =>
      (match FreshChoice(net, snapshot)
       case None => None
       case Some(vip) => Some(Register(n, JoinMachine(k), k, vip, Approved)))
    case ApproveMember(_, i) =>
      (match FreshChoice(net, snapshot)
       case None => None
       case Some(vip) => Some(Approve(i, vip)))
  }

  /** A handler that nothing interrupts. */
  ghost function Handled(nets: Networks, rows: Rows, q: Request, newId: string): Rows {
    if !Admitted(nets, rows, q) then rows
    else
      match Decision(nets, Listed(rows, q.network), q)
      case None => rows
      case Some(w) => Committed(rows, w, newId)
  }

  // ---- Interleaved handlers ----

  /** A handler that has made its checks, listed the network, or made its choice. */
  datatype Stage = Entered(request: Request) | Snapshot(request: Request, seen: Rows) | Chosen(write: Write)

  datatype World = World(rows: Rows, inFlight: seq<Stage>)

  /** A handler checks, lists, decides or writes, each by a query of its own; Direct is a
    handler that is one statement. */
  datatype Step =
    | Enter(request: Request)
    | List(index: nat)
    | Decide(index: nat)
    | Commit(index: nat, newId: string)
    | Direct(write: Write, newId: string)

  function Without(stages: seq<Stage>, i: nat): seq<Stage>
    requires i < |stages|
  {
    stages[..i] + stages[i + 1..]
  }

  ghost predicate SingleStatement(nets: Networks, w: Write) {
    && !w.Register? && !w.Approve?
    && (w.RegisterPending? ==> w.network in nets && |w.key| >= KEY_PREFIX && w.machine == JoinMachine(w.key))
  }

  ghost predicate Next(nets: Networks, a: World, step: Step, b: World) {
    match step
    case Enter(q) =>
      Admitted(nets, a.rows, q) && b == a.(inFlight := a.inFlight + [Entered(q)])
    case List(i) =>
      && i < |a.inFlight| && a.inFlight[i].Entered?
      && var q := a.inFlight[i].request;
         b == a.(inFlight := a.inFlight[i := Snapshot(q, Listed(a.rows, q.network))])
    case Decide(i) =>
      && i < |a.inFlight| && a.inFlight[i].Snapshot? && WellFormed(nets, a.inFlight[i].request)
      && b == a.(inFlight :=
           match Decision(nets, a.inFlight[i].seen, a.inFlight[i].request)
           case None => Without(a.inFlight, i)
           case Some(w) => a.inFlight[i := Chosen(w)])
    case Commit(i, newId) =>
      && i < |a.inFlight| && a.inFlight[i].Chosen? && newId !in a.rows
      && b == World(Committed(a.rows, a.inFlight[i].write, newId), Without(a.inFlight, i))
    case Direct(w, newId) =>
      SingleStatement(nets, w) && newId !in a.rows && b == a.(rows := Committed(a.rows, w, newId))
  }

  ghost predicate Run(nets: Networks, worlds: seq<World>, steps: seq<Step>) {
    && |worlds| == |steps| + 1
    && worlds[0] == World(map[], [])
    && forall i :: 0 <= i < |steps| ==> Next(nets, worlds[i], steps[i], worlds[i + 1])
  }

  /** Under every interleaving, real addresses are distinct per network. */
  lemma {:induction false} RunsKeepUnique(nets: Networks, worlds: seq<World>, steps: seq<Step>, n: nat)
    requires Run(nets, worlds, steps) && n < |worlds|
    ensures Unique(worlds[n].rows)
  {
    if n > 0 {
      RunsKeepUnique(nets, worlds, steps, n - 1);
      var step := steps[n - 1];
      assert Next(nets, worlds[n - 1], step, worlds[n]);
      match step
      case Commit(i, newId) => CommitKeepsUnique(worlds[n - 1].rows, worlds[n - 1].inFlight[i].write, newId);
      case Direct(w, newId) => CommitKeepsUnique(worlds[n - 1].rows, w, newId);
      case _ =>
    }
  }
}
