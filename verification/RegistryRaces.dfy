/** Interleaved handlers: exactly which commits take an approved peer's address out of
  order, over every run, and the two ways in which that happens. */
module RegistryRaces {
  import opened Wrappers
  import opened Allocator
  import opened Registry
  import opened RegistryRuns

  // ---- Exactly when approved rows keep a real address ----

  ghost predicate Steps(nets: Networks, worlds: seq<World>, steps: seq<Step>, i: nat)
    requires i < |steps| < |worlds|
  {
    Next(nets, worlds[i], steps[i], worlds[i + 1])
  }

  lemma RunSteps(nets: Networks, worlds: seq<World>, steps: seq<Step>, i: nat)
    requires Run(nets, worlds, steps) && i < |steps|
    ensures Steps(nets, worlds, steps, i)
  {}

  /** The statement a step commits, if it commits one that was decided before. */
  ghost function CommitOf(a: World, step: Step): Option<Write> {
    if step.Commit? && step.index < |a.inFlight| && a.inFlight[step.index].Chosen?
    then Some(a.inFlight[step.index].write) else None
  }

  ghost predicate Erases(a: World, step: Step) {
    CommitOf(a, step).Some? && ErasesApproved(a.rows, CommitOf(a, step).value)
  }

  ghost predicate Spoils(nets: Networks, a: World, step: Step) {
    CommitOf(a, step).Some? && Misplaces(nets, a.rows, CommitOf(a, step).value)
  }

  ghost predicate ChoicesReal(stages: seq<Stage>) {
    forall i :: 0 <= i < |stages| && stages[i].Chosen? ==> WriteReal(stages[i].write)
  }

  lemma DecisionIsReal(nets: Networks, seen: Rows, q: Request)
    requires WellFormed(nets, q) && Decision(nets, seen, q).Some?
    ensures WriteReal(Decision(nets, seen, q).value)
  {
    if Allocate(nets[q.network], Addresses(seen) - {0}).Some? {
      AllocatesHosts(nets[q.network], Addresses(seen) - {0});
    }
  }

  lemma StepKeepsChoicesReal(nets: Networks, a: World, step: Step, b: World)
    requires Next(nets, a, step, b) && ChoicesReal(a.inFlight)
    ensures ChoicesReal(b.inFlight)
  {
    if step.Decide? && Decision(nets, a.inFlight[step.index].seen, a.inFlight[step.index].request).Some? {
      DecisionIsReal(nets, a.inFlight[step.index].seen, a.inFlight[step.index].request);
    }
  }

  lemma {:induction false} RunsChooseReal(nets: Networks, worlds: seq<World>, steps: seq<Step>, n: nat)
    requires Run(nets, worlds, steps) && n < |worlds|
    ensures ChoicesReal(worlds[n].inFlight)
  {
    if n > 0 {
      RunsChooseReal(nets, worlds, steps, n - 1);
      RunSteps(nets, worlds, steps, n - 1);
      StepKeepsChoicesReal(nets, worlds[n - 1], steps[n - 1], worlds[n]);
    }
  }

  lemma StepKeepsReal(nets: Networks, a: World, step: Step, b: World)
    requires Next(nets, a, step, b) && Unique(a.rows) && ChoicesReal(a.inFlight) && ApprovedReal(a.rows)
    ensures ApprovedReal(b.rows) <==> !Erases(a, step)
  {
    match step
    case Commit(i, newId) => CommitKeepsApprovedReal(a.rows, a.inFlight[i].write, newId);
    case Direct(w, newId) => CommitKeepsApprovedReal(a.rows, w, newId);
    case _ =>
  }

  /** Over every interleaving: approved rows have had real addresses all along if and only
    if no commit so far erased one. */
  lemma {:induction false} RunsStayRealExactlyWhen(nets: Networks, worlds: seq<World>, steps: seq<Step>, n: nat)
    requires Run(nets, worlds, steps) && n < |worlds|
    ensures (forall k :: 0 <= k <= n ==> ApprovedReal(worlds[k].rows)) <==>
              forall i :: 0 <= i < n ==> !Erases(worlds[i], steps[i])
  {
    if n > 0 {
      RunsStayRealExactlyWhen(nets, worlds, steps, n - 1);
      RunsKeepUnique(nets, worlds, steps, n - 1);
      RunsChooseReal(nets, worlds, steps, n - 1);
      RunSteps(nets, worlds, steps, n - 1);
      if ApprovedReal(worlds[n - 1].rows) {
        StepKeepsReal(nets, worlds[n - 1], steps[n - 1], worlds[n]);
      }
    }
  }

  // ---- Exactly when they keep an address of their network ----

  ghost predicate StageAddressed(nets: Networks, s: Stage) {
    match s
    case Entered(q) => WellFormed(nets, q)
    case Snapshot(q, seen) =>
      WellFormed(nets, q) && Addressed(nets, seen) && forall i :: i in seen ==> seen[i].network == q.network
    case Chosen(w) => WriteAddressed(nets, w)
  }

  ghost predicate StagesAddressed(nets: Networks, stages: seq<Stage>) {
    forall i :: 0 <= i < |stages| ==> StageAddressed(nets, stages[i])
  }

  lemma DecisionIsAddressed(nets: Networks, seen: Rows, q: Request)
    requires StageAddressed(nets, Snapshot(q, seen)) && Decision(nets, seen, q).Some?
    ensures WriteAddressed(nets, Decision(nets, seen, q).value)
  {
    DecisionAssignsHosts(nets, seen, q);
  }

  lemma StepKeepsAddressed(nets: Networks, a: World, step: Step, b: World)
    requires Next(nets, a, step, b) && StagesAddressed(nets, a.inFlight) && Addressed(nets, a.rows)
    ensures StagesAddressed(nets, b.inFlight)
  {
    match step
    case Enter(q) =>
    case List(i) => ListedAddressed(nets, a.rows, a.inFlight[i].request.network);
    case Decide(i) =>
      assert StageAddressed(nets, a.inFlight[i]);
      if Decision(nets, a.inFlight[i].seen, a.inFlight[i].request).Some? {
        DecisionIsAddressed(nets, a.inFlight[i].seen, a.inFlight[i].request);
      }
    case Commit(i, newId) =>
    case Direct(w, newId) =>
  }

  lemma StepKeepsGood(nets: Networks, a: World, step: Step, b: World)
    requires Next(nets, a, step, b) && StagesAddressed(nets, a.inFlight) && Good(nets, a.rows)
    ensures Good(nets, b.rows) <==> !Erases(a, step) && !Spoils(nets, a, step)
  {
    match step
    case Commit(i, newId) =>
      assert StageAddressed(nets, a.inFlight[i]);
      CommitKeepsGood(nets, a.rows, a.inFlight[i].write, newId);
    case Direct(w, newId) => CommitKeepsGood(nets, a.rows, w, newId);
    case _ =>
  }

  /** Over every interleaving: all rows have had an address of their network or none yet, and
    approved ones a real one, all along if and only if no commit so far erased or misplaced
    an approved address. */
  lemma {:induction false} RunsStayGoodExactlyWhen(nets: Networks, worlds: seq<World>, steps: seq<Step>, n: nat)
    requires Run(nets, worlds, steps) && n < |worlds|
    ensures (forall k :: 0 <= k <= n ==> Good(nets, worlds[k].rows)) <==>
              forall i :: 0 <= i < n ==> !Erases(worlds[i], steps[i]) && !Spoils(nets, worlds[i], steps[i])
    ensures (forall k :: 0 <= k <= n ==> Good(nets, worlds[k].rows)) ==> StagesAddressed(nets, worlds[n].inFlight)
  {
    if n > 0 {
      RunsStayGoodExactlyWhen(nets, worlds, steps, n - 1);
      RunSteps(nets, worlds, steps, n - 1);
      if forall k :: 0 <= k <= n - 1 ==> Good(nets, worlds[k].rows) {
        StepKeepsAddressed(nets, worlds[n - 1], steps[n - 1], worlds[n]);
        StepKeepsGood(nets, worlds[n - 1], steps[n - 1], worlds[n]);
      }
    }
  }

  // ---- An approval erased ----

  /** The characters of a base64 public key. */
  predicate KeyChar(c: char) {
    'A' <= c <= 'Z' || 'a' <= c <= 'z' || '0' <= c <= '9' || c == '+' || c == '/' || c == '='
  }

  /** A public key that Join takes. */
  predicate JoinKey(k: string) {
    |k| >= KEY_PREFIX && forall i :: 0 <= i < |k| ==> KeyChar(k[i])
  }

  /** The one row of the race: a device that joined with key k. */
  function Solo(n: string, k: string, vip: uint32, status: Status, online: bool): Rows
    requires JoinKey(k)
  {
    map["a" := Row(n, JoinMachine(k), k, vip, status, online)]
  }

  lemma SoloHolder(n: string, k: string, vip: uint32, status: Status, online: bool)
    requires JoinKey(k)
    ensures Holder(Solo(n, k, vip, status, online), JoinMachine(k)) == Some("a")
    ensures Listed(Solo(n, k, vip, status, online), n) == Solo(n, k, vip, status, online)
    ensures Addresses(Solo(n, k, vip, status, online)) == {vip}
  {
    var rows := Solo(n, k, vip, status, online);
    assert "a" in rows && rows["a"].machine == JoinMachine(k);
  }

  lemma RaceStatements(n: string, k: string, vip: uint32)
    requires JoinKey(k)
    ensures Committed(map[], RegisterPending(n, JoinMachine(k), k), "a") == Solo(n, k, 0, Pending, false)
    ensures Committed(Solo(n, k, 0, Pending, false), Approve("a", vip), "b") == Solo(n, k, vip, Approved, false)
    ensures Committed(Solo(n, k, vip, Approved, false), Register(n, JoinMachine(k), k, 0, Blank), "b")
         == Solo(n, k, 0, Approved, true)
  {
    SoloHolder(n, k, vip, Approved, false);
  }

  lemma RaceDecisions(nets: Networks, n: string, k: string) returns (vip: uint32)
    requires n in nets && 1 <= nets[n].prefix <= 30 && JoinKey(k)
    ensures vip == Start(nets[n]) && vip != 0
    ensures Decision(nets, Solo(n, k, 0, Pending, false), RegisterPeer(n, JoinMachine(k), k))
         == Some(Register(n, JoinMachine(k), k, 0, Blank))
    ensures Decision(nets, Solo(n, k, 0, Pending, false), ApproveMember(n, "a")) == Some(Approve("a", vip))
  {
    var net := nets[n];
    SoloHolder(n, k, 0, Pending, false);
    AllocatesLeastFree(net, {});
    WideBlock(net);
    assert InHostRange(net, Start(net));
    AllocatesHosts(net, {});
    vip := Allocate(net, {}).value;
    assert vip == Start(net);
    assert Addresses(Solo(n, k, 0, Pending, false)) - {0} == {};
  }

  lemma RunExtends(nets: Networks, worlds: seq<World>, steps: seq<Step>, step: Step, b: World)
      returns (ws: seq<World>, ss: seq<Step>)
    requires Run(nets, worlds, steps) && Next(nets, worlds[|steps|], step, b)
    ensures Run(nets, ws, ss) && |ss| == |steps| + 1 && ws[|steps|] == worlds[|steps|] && ws[|ss|] == b
  {
    ws, ss := worlds + [b], steps + [step];
  }

  /** The device joins, and RegisterPeer gets as far as its choice. */
  lemma RaceOpens(nets: Networks, n: string, k: string)
    requires n in nets && 1 <= nets[n].prefix <= 30 && JoinKey(k)
    ensures var m, pending := JoinMachine(k), Solo(n, k, 0, Pending, false);
            var register, erase := RegisterPeer(n, m, k), Register(n, m, k, 0, Blank);
            && Next(nets, World(map[], []), Direct(RegisterPending(n, m, k), "a"), World(pending, []))
            && Next(nets, World(pending, []), Enter(register), World(pending, [Entered(register)]))
            && Next(nets, World(pending, [Entered(register)]), List(0), World(pending, [Snapshot(register, pending)]))
            && Next(nets, World(pending, [Snapshot(register, pending)]), Decide(0), World(pending, [Chosen(erase)]))
  {
    var _ := RaceDecisions(nets, n, k);
    RaceStatements(n, k, 0);
    SoloHolder(n, k, 0, Pending, false);
  }

  /** Meanwhile the owner approves the device. */
  lemma RaceApproves(nets: Networks, n: string, k: string, erase: Write) returns (vip: uint32)
    requires n in nets && 1 <= nets[n].prefix <= 30 && JoinKey(k)
    ensures vip != 0
    ensures var pending := Solo(n, k, 0, Pending, false);
            var approve, assign := ApproveMember(n, "a"), Approve("a", vip);
            && Next(nets, World(pending, [Chosen(erase)]), Enter(approve), World(pending, [Chosen(erase), Entered(approve)]))
            && Next(nets, World(pending, [Chosen(erase), Entered(approve)]), List(1),
                          World(pending, [Chosen(erase), Snapshot(approve, pending)]))
            && Next(nets, World(pending, [Chosen(erase), Snapshot(approve, pending)]), Decide(1),
                          World(pending, [Chosen(erase), Chosen(assign)]))
            && Next(nets, World(pending, [Chosen(erase), Chosen(assign)]), Commit(1, "b"),
                          World(Solo(n, k, vip, Approved, false), [Chosen(erase)]))
  {
    vip := RaceDecisions(nets, n, k);
    RaceStatements(n, k, vip);
    SoloHolder(n, k, 0, Pending, false);
  }

  /** The write that was chosen before the approval now goes through. */
  lemma RaceErases(nets: Networks, n: string, k: string, vip: uint32)
    requires JoinKey(k)
    ensures Next(nets, World(Solo(n, k, vip, Approved, false), [Chosen(Register(n, JoinMachine(k), k, 0, Blank))]),
                 Commit(0, "b"), World(Solo(n, k, 0, Approved, true), []))
    ensures !ApprovedReal(Solo(n, k, 0, Approved, true))
  {
    RaceStatements(n, k, vip);
    assert Solo(n, k, 0, Approved, true)["a"].status == Approved;
  }

  lemma RaceBeforeApproval(nets: Networks, n: string, k: string) returns (worlds: seq<World>, steps: seq<Step>)
    requires n in nets && 1 <= nets[n].prefix <= 30 && JoinKey(k)
    ensures Run(nets, worlds, steps) && |steps| == 4
    ensures worlds[4] == World(Solo(n, k, 0, Pending, false), [Chosen(Register(n, JoinMachine(k), k, 0, Blank))])
  {
    RaceOpens(nets, n, k);
    var m, pending := JoinMachine(k), Solo(n, k, 0, Pending, false);
    var register, erase := RegisterPeer(n, m, k), Register(n, m, k, 0, Blank);
    worlds, steps := [World(map[], [])], [];
    worlds, steps := RunExtends(nets, worlds, steps, Direct(RegisterPending(n, m, k), "a"), World(pending, []));
    worlds, steps := RunExtends(nets, worlds, steps, Enter(register), World(pending, [Entered(register)]));
    worlds, steps := RunExtends(nets, worlds, steps, List(0), World(pending, [Snapshot(register, pending)]));
    worlds, steps := RunExtends(nets, worlds, steps, Decide(0), World(pending, [Chosen(erase)]));
  }

  /** In every network, for a device that joined with any key and registers under the same
    machine id: between RegisterPeer's list and its write, an approval slips in; the
    write then puts the placeholder over the approved address. */
  lemma InterleavingErasesAddress(nets: Networks, n: string, k: string)
      returns (worlds: seq<World>, steps: seq<Step>, vip: uint32)
    requires n in nets && 1 <= nets[n].prefix <= 30 && JoinKey(k)
    ensures Run(nets, worlds, steps) && |steps| == 9
    ensures vip != 0 && worlds[8].rows == Solo(n, k, vip, Approved, false)
    ensures worlds[9].rows == Solo(n, k, 0, Approved, true) && !ApprovedReal(worlds[9].rows)
  {
    worlds, steps := RaceBeforeApproval(nets, n, k);
    var pending, erase := Solo(n, k, 0, Pending, false), Register(n, JoinMachine(k), k, 0, Blank);
    vip := RaceApproves(nets, n, k, erase);
    RaceErases(nets, n, k, vip);
    var approve, assign := ApproveMember(n, "a"), Approve("a", vip);
    worlds, steps := RunExtends(nets, worlds, steps, Enter(approve), World(pending, [Chosen(erase), Entered(approve)]));
    worlds, steps := RunExtends(nets, worlds, steps, List(1), World(pending, [Chosen(erase), Snapshot(approve, pending)]));
    worlds, steps := RunExtends(nets, worlds, steps, Decide(1), World(pending, [Chosen(erase), Chosen(assign)]));
    worlds, steps := RunExtends(nets, worlds, steps, Commit(1, "b"), World(Solo(n, k, vip, Approved, false), [Chosen(erase)]));
    worlds, steps := RunExtends(nets, worlds, steps, Commit(0, "b"), World(Solo(n, k, 0, Approved, true), []));
  }

  // ---- An approval misplaced ----

  /** The device is pending in n1, and an approval there gets as far as its choice. */
  lemma CrossOpens(nets: Networks, n1: string, k: string) returns (worlds: seq<World>, steps: seq<Step>)
    requires n1 in nets && 1 <= nets[n1].prefix <= 30 && JoinKey(k)
    ensures Run(nets, worlds, steps) && |steps| == 4
    ensures worlds[4] == World(Solo(n1, k, 0, Pending, false), [Chosen(Approve("a", Start(nets[n1])))])
  {
    var vip := RaceDecisions(nets, n1, k);
    var m, pending, approve := JoinMachine(k), Solo(n1, k, 0, Pending, false), ApproveMember(n1, "a");
    RaceStatements(n1, k, vip);
    SoloHolder(n1, k, 0, Pending, false);
    worlds, steps := [World(map[], [])], [];
    worlds, steps := RunExtends(nets, worlds, steps, Direct(RegisterPending(n1, m, k), "a"), World(pending, []));
    worlds, steps := RunExtends(nets, worlds, steps, Enter(approve), World(pending, [Entered(approve)]));
    worlds, steps := RunExtends(nets, worlds, steps, List(0), World(pending, [Snapshot(approve, pending)]));
    worlds, steps := RunExtends(nets, worlds, steps, Decide(0), World(pending, [Chosen(Approve("a", vip))]));
  }

  /** Meanwhile the same device joins n2, and the upsert moves its row there. */
  lemma CrossJoins(nets: Networks, n1: string, n2: string, k: string, choice: Write) returns (vip: uint32)
    requires n1 in nets && n2 in nets && n1 != n2 && 1 <= nets[n2].prefix <= 30 && JoinKey(k)
    ensures var pending, join := Solo(n1, k, 0, Pending, false), JoinAuto(n2, k);
            var move := Register(n2, JoinMachine(k), k, vip, Approved);
            && Next(nets, World(pending, [Chosen(choice)]), Enter(join), World(pending, [Chosen(choice), Entered(join)]))
            && Next(nets, World(pending, [Chosen(choice), Entered(join)]), List(1),
                          World(pending, [Chosen(choice), Snapshot(join, map[])]))
            && Next(nets, World(pending, [Chosen(choice), Snapshot(join, map[])]), Decide(1),
                          World(pending, [Chosen(choice), Chosen(move)]))
            && Next(nets, World(pending, [Chosen(choice), Chosen(move)]), Commit(1, "b"),
                          World(Solo(n2, k, vip, Pending, true), [Chosen(choice)]))
  {
    AllocatesLeastFree(nets[n2], {});
    WideBlock(nets[n2]);
    assert InHostRange(nets[n2], Start(nets[n2]));
    vip := Allocate(nets[n2], {}).value;
    assert Addresses(map[]) - {0} == {};
    SoloHolder(n1, k, 0, Pending, false);
    assert Listed(Solo(n1, k, 0, Pending, false), n2) == map[];
  }

  /** For any two networks and every key: a device pending in n1 joins n2 while its approval
    in n1 is being decided.  It ends up approved in n2 with a real address, but one of n1;
    and its next heartbeat gets it listed so. */
  lemma InterleavingMisplacesAddress(nets: Networks, n1: string, n2: string, k: string)
      returns (worlds: seq<World>, steps: seq<Step>)
    requires n1 in nets && n2 in nets && n1 != n2 && JoinKey(k)
    requires 1 <= nets[n1].prefix <= 30 && 1 <= nets[n2].prefix <= 30 && !Contains(nets[n2], Start(nets[n1]))
    ensures Run(nets, worlds, steps) && |steps| == 9
    ensures var rows := worlds[9].rows;
            && rows == Solo(n2, k, Start(nets[n1]), Approved, false) && ApprovedReal(rows) && !Addressed(nets, rows)
            && "a" in OnlinePeers(Committed(rows, Heartbeat("a"), "b"), n2)
  {
    worlds, steps := CrossOpens(nets, n1, k);
    var pending, join := Solo(n1, k, 0, Pending, false), JoinAuto(n2, k);
    var choice := Approve("a", Start(nets[n1]));
    var vip := CrossJoins(nets, n1, n2, k, choice);
    var move := Register(n2, JoinMachine(k), k, vip, Approved);
    WideBlock(nets[n1]);
    CrossCommits(nets, n2, k, vip, Start(nets[n1]));
    worlds, steps := RunExtends(nets, worlds, steps, Enter(join), World(pending, [Chosen(choice), Entered(join)]));
    worlds, steps := RunExtends(nets, worlds, steps, List(1), World(pending, [Chosen(choice), Snapshot(join, map[])]));
    worlds, steps := RunExtends(nets, worlds, steps, Decide(1), World(pending, [Chosen(choice), Chosen(move)]));
    worlds, steps := RunExtends(nets, worlds, steps, Commit(1, "b"), World(Solo(n2, k, vip, Pending, true), [Chosen(choice)]));
    worlds, steps := RunExtends(nets, worlds, steps, Commit(0, "b"), World(Solo(n2, k, Start(nets[n1]), Approved, false), []));
  }

  lemma CrossCommits(nets: Networks, n2: string, k: string, vip: uint32, foreign: uint32)
    requires n2 in nets && JoinKey(k) && foreign != 0 && !Contains(nets[n2], foreign)
    ensures Next(nets, World(Solo(n2, k, vip, Pending, true), [Chosen(Approve("a", foreign))]), Commit(0, "b"),
                 World(Solo(n2, k, foreign, Approved, false), []))
    ensures var rows := Solo(n2, k, foreign, Approved, false);
            && ApprovedReal(rows) && !Addressed(nets, rows)
            && "a" in OnlinePeers(Committed(rows, Heartbeat("a"), "b"), n2)
  {
    var rows := Solo(n2, k, foreign, Approved, false);
    assert "a" in rows && !RowAddressed(nets, rows["a"]);
    assert Committed(rows, Heartbeat("a"), "b") == Solo(n2, k, foreign, Approved, true);
  }
}
