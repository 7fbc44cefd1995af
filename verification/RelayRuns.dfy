/** Runs of the relay: the read loop handles one packet at a time, in two critical
  sections when the packet names a session, and the sweeper may run between any two
  of them. */
module RelayRuns {
  import opened Wrappers
  import opened RelayTable

  /** What a control packet says. */
  datatype Status = Waiting | BothHere | Pong

  /** What the server wrote to its socket. */
  datatype Sent =
    | Data(session: nat, packet: bytes, from: Addr, to: Addr)
    | Control(session: nat, status: Status, to: Addr)

  /** The read loop between its two critical sections holds a session pointer. */
  datatype Held = Nothing | Holding(session: nat, packet: bytes, from: Addr)

  /** received and sent are the traffic so far. */
  datatype Relay = Relay(table: Table, held: Held, received: seq<(bytes, Addr)>, sent: seq<Sent>)

  /** token is what the JSON of a connect payload yields, None when it is malformed. */
  datatype Step =
    | Receive(packet: bytes, from: Addr, token: Option<string>, now: int, newId: Id)
    | Finish(now: int)
    | Sweep(now: int)

  /** The acknowledgement, preceded by a notice to both peers once there are two. */
  function Acks(s: Session, p: nat, from: Addr): seq<Sent> {
    if s.peerA.Some? && s.peerB.Some? then
      [Control(p, BothHere, s.peerA.value), Control(p, BothHere, s.peerB.value), Control(p, BothHere, from)]
    else [Control(p, Waiting, from)]
  }

  function Received(r: Relay, packet: bytes, from: Addr, token: Option<string>, now: int, newId: Id): Relay {
    var q := r.(received := r.received + [(packet, from)]);
    if |packet| < HEADER_LEN then q
    else if KindOf(packet) == CONNECT then
      if token.None? || token.value == "" then q
      else
        var (t, p) := Connected(r.table, token.value, from, now, newId);
        q.(table := t, sent := q.sent + (if p < |t.arena| then Acks(t.arena[p], p, from) else []))
    else if KindOf(packet) in {DATA, PING, DISCONNECT} && KeyOf(IdOf(packet)) in r.table.sessions then
      q.(held := Holding(r.table.sessions[KeyOf(IdOf(packet))], packet, from))
    else q
  }

  function Finished(r: Relay, now: int): Relay {
    if r.held.Nothing? || r.held.session >= |r.table.arena| || |r.held.packet| < HEADER_LEN then r.(held := Nothing)
    else
      var p, s := r.held.session, r.table.arena[r.held.session];
      var q, kind := r.(held := Nothing), KindOf(r.held.packet);
      if kind == DATA then
        var to := Destination(s, r.held.from);
        q.(table := Touched(r.table, p, now),
           sent := if to.Some? then r.sent + [Data(p, r.held.packet, r.held.from, to.value)] else r.sent)
      else if kind == PING then q.(table := Touched(r.table, p, now), sent := r.sent + [Control(p, Pong, r.held.from)])
      else if kind == DISCONNECT then q.(table := Removed(r.table, s.id))
      else q
  }

  ghost predicate Enabled(r: Relay, step: Step) {
    match step
    case Receive(packet, _, _, _, newId) => r.held.Nothing? && newId !in r.table.sessions
    case Finish(_) => r.held.Holding?
    case Sweep(_) => true
  }

  ghost function Next(r: Relay, step: Step): Relay {
    match step
    case Receive(packet, from, token, now, newId) => Received(r, packet, from, token, now, newId)
    case Finish(now) => Finished(r, now)
    case Sweep(now) => r.(table := Swept(r.table, now))
  }

  ghost predicate Steps(relays: seq<Relay>, steps: seq<Step>, i: nat)
    requires i < |steps| < |relays|
  {
    Enabled(relays[i], steps[i]) && relays[i + 1] == Next(relays[i], steps[i])
  }

  ghost predicate Run(relays: seq<Relay>, steps: seq<Step>) {
    && |relays| == |steps| + 1
    && (exists gauge :: relays[0] == Relay(Table([], map[], map[], gauge), Nothing, [], [])
          && (gauge.Some? ==> gauge.value == 0))
    && forall i :: 0 <= i < |steps| ==> Steps(relays, steps, i)
  }

  // ---- What every step keeps ----

  /** A data packet went from one of the session's two peers to the other. */
  ghost predicate Paired(s: Session, from: Addr, to: Addr) {
    && s.peerA.Some? && s.peerB.Some?
    && ((SameAddr(s.peerA.value, from) && to == s.peerB.value) || (SameAddr(s.peerB.value, from) && to == s.peerA.value))
  }

  ghost predicate Relayed(r: Relay, e: Sent) {
    e.Data? ==>
      && e.session < |r.table.arena| && Paired(r.table.arena[e.session], e.from, e.to)
      && (e.packet, e.from) in r.received
      && |e.packet| >= HEADER_LEN && KindOf(e.packet) == DATA && KeyOf(IdOf(e.packet)) == r.table.arena[e.session].id
  }

  ghost predicate HeldOk(r: Relay) {
    r.held.Holding? ==>
      && r.held.session < |r.table.arena| && |r.held.packet| >= HEADER_LEN
      && (r.held.packet, r.held.from) in r.received
      && KeyOf(IdOf(r.held.packet)) == r.table.arena[r.held.session].id
  }

  ghost predicate Sound(r: Relay) {
    && Inverse(r.table)
    && HeldOk(r)
    && forall i :: 0 <= i < |r.sent| ==> Relayed(r, r.sent[i])
  }

  /** An object keeps its id, token and peers, except that an empty place may be filled. */
  ghost predicate Kept(s: Session, t: Session) {
    && t.id == s.id && t.token == s.token
    && (s.peerA.Some? ==> t.peerA == s.peerA)
    && (s.peerB.Some? ==> t.peerB == s.peerB)
  }

  /** Session objects are only ever added to. */
  ghost predicate Grows(a: seq<Session>, b: seq<Session>) {
    |a| <= |b| && forall p :: 0 <= p < |a| ==> Kept(a[p], b[p])
  }

  lemma UpdateGrows(a: seq<Session>, p: nat, s: Session)
    requires p < |a| && Kept(a[p], s)
    ensures Grows(a, a[p := s])
  {}

  lemma ConnectGrows(t: Table, token: string, peer: Addr, now: int, newId: Id)
    ensures Grows(t.arena, Connected(t, token, peer, now, newId).0.arena)
  {}

  lemma NextGrows(r: Relay, step: Step, q: Relay)
    requires q == Next(r, step)
    ensures Grows(r.table.arena, q.table.arena)
  {
    match step
    case Receive(packet, from, token, now, newId) =>
      if token.Some? {
        ConnectGrows(r.table, token.value, from, now, newId);
      }
    case Finish(now) =>
      if r.held.Holding? && r.held.session < |r.table.arena| {
        UpdateGrows(r.table.arena, r.held.session, r.table.arena[r.held.session].(last := now));
      }
    case Sweep(_) =>
  }

  lemma ReceivedGrows(r: Relay, step: Step)
    ensures forall x :: x in r.received ==> x in Next(r, step).received
  {}

  /** A step that writes no data packet and keeps the rest sound. */
  lemma ControlIsSound(r: Relay, q: Relay, more: seq<Sent>)
    requires Sound(r) && Inverse(q.table) && HeldOk(q)
    requires Grows(r.table.arena, q.table.arena) && forall x :: x in r.received ==> x in q.received
    requires q.sent == r.sent + more && forall i :: 0 <= i < |more| ==> Relayed(q, more[i])
    ensures Sound(q)
  {}

  lemma ConnectIsSound(r: Relay, step: Step)
    requires Sound(r) && Enabled(r, step) && step.Receive? && |step.packet| >= HEADER_LEN
    requires KindOf(step.packet) == CONNECT && step.token.Some? && step.token.value != ""
    ensures Sound(Next(r, step))
  {
    var Receive(packet, from, token, now, newId) := step;
    var (t, p) := Connected(r.table, token.value, from, now, newId);
    ConnectKeepsInverse(r.table, token.value, from, now, newId);
    ConnectGrows(r.table, token.value, from, now, newId);
    var acks := Acks(t.arena[p], p, from);
    var q := r.(received := r.received + [(packet, from)], table := t, sent := r.sent + acks);
    assert q == Next(r, step);
    ControlIsSound(r, q, acks);
  }

  lemma LookupIsSound(r: Relay, step: Step)
    requires Sound(r) && Enabled(r, step) && step.Receive?
    requires |step.packet| >= HEADER_LEN ==> KindOf(step.packet) != CONNECT
    ensures Sound(Next(r, step))
  {}

  lemma ReceiveIsSound(r: Relay, step: Step)
    requires Sound(r) && Enabled(r, step) && step.Receive?
    ensures Sound(Next(r, step))
  {
    if |step.packet| >= HEADER_LEN && KindOf(step.packet) == CONNECT {
      if step.token.Some? && step.token.value != "" {
        ConnectIsSound(r, step);
      } else {
        ReceivedGrows(r, step);
        NextGrows(r, step, Next(r, step));
        ControlIsSound(r, Next(r, step), []);
      }
    } else {
      LookupIsSound(r, step);
    }
  }

  /** A held session may have been swept; it is still the pair that was looked up. */
  lemma DataIsRelayed(r: Relay, now: int)
    requires Sound(r) && r.held.Holding? && KindOf(r.held.packet) == DATA
    requires Destination(r.table.arena[r.held.session], r.held.from).Some?
    ensures Relayed(Finished(r, now), Data(r.held.session, r.held.packet, r.held.from,
                                           Destination(r.table.arena[r.held.session], r.held.from).value))
  {}

  lemma TouchIsSound(r: Relay, now: int, more: seq<Sent>)
    requires Sound(r) && r.held.Holding?
    requires var q := r.(held := Nothing, table := Touched(r.table, r.held.session, now), sent := r.sent + more);
             forall i :: 0 <= i < |more| ==> Relayed(q, more[i])
    ensures Sound(r.(held := Nothing, table := Touched(r.table, r.held.session, now), sent := r.sent + more))
  {
    var p := r.held.session;
    TouchKeepsInverse(r.table, p, now);
    UpdateGrows(r.table.arena, p, r.table.arena[p].(last := now));
    ControlIsSound(r, r.(held := Nothing, table := Touched(r.table, p, now), sent := r.sent + more), more);
  }

  lemma FinishIsSound(r: Relay, now: int)
    requires Sound(r) && r.held.Holding?
    ensures Sound(Finished(r, now))
  {
    var p, s := r.held.session, r.table.arena[r.held.session];
    var to := Destination(s, r.held.from);
    if KindOf(r.held.packet) == DATA {
      if to.Some? {
        DataIsRelayed(r, now);
        TouchIsSound(r, now, [Data(p, r.held.packet, r.held.from, to.value)]);
      } else {
        TouchIsSound(r, now, []);
        assert r.sent + [] == r.sent;
      }
    } else if KindOf(r.held.packet) == PING {
      TouchIsSound(r, now, [Control(p, Pong, r.held.from)]);
    } else {
      RemoveKeepsInverse(r.table, s.id);
      assert r.sent + [] == r.sent;
      ControlIsSound(r, Finished(r, now), []);
    }
  }

  lemma SweepIsSound(r: Relay, now: int)
    requires Sound(r)
    ensures Sound(Next(r, Sweep(now)))
  {
    SweepKeepsInverse(r.table, now);
    ControlIsSound(r, Next(r, Sweep(now)), []);
  }

  /** Over every interleaving: the maps stay inverse, the gauge counts the sessions, and
    every data packet ever forwarded went unchanged from one of its session's two peers
    to the other. */
  lemma {:induction false} RunsAreSound(relays: seq<Relay>, steps: seq<Step>, n: nat)
    requires Run(relays, steps) && n < |relays|
    ensures Sound(relays[n])
  {
    if n > 0 {
      RunsAreSound(relays, steps, n - 1);
      assert Steps(relays, steps, n - 1);
      match steps[n - 1]
      case Receive(_, _, _, _, _) => ReceiveIsSound(relays[n - 1], steps[n - 1]);
      case Finish(now) => FinishIsSound(relays[n - 1], now);
      case Sweep(now) => SweepIsSound(relays[n - 1], now);
    }
  }

  // ---- Every packet is forwarded at most once ----

  /** The packets, with their senders, that were forwarded. */
  ghost function Forwarded(sent: seq<Sent>): multiset<(bytes, Addr)> {
    if sent == [] then multiset{}
    else
      var e := sent[|sent| - 1];
      Forwarded(sent[..|sent| - 1]) + (if e.Data? then multiset{(e.packet, e.from)} else multiset{})
  }

  ghost function InHand(h: Held): multiset<(bytes, Addr)> {
    if h.Holding? then multiset{(h.packet, h.from)} else multiset{}
  }

  lemma {:induction false} ForwardedAfter(sent: seq<Sent>, more: seq<Sent>)
    ensures Forwarded(sent + more) == Forwarded(sent) + Forwarded(more)
    decreases |more|
  {
    if more == [] {
      assert sent + more == sent;
    } else {
      var n := |more| - 1;
      ForwardedAfter(sent, more[..n]);
      assert (sent + more)[..|sent + more| - 1] == sent + more[..n];
    }
  }

  lemma {:induction false} ControlsForwardNothing(sent: seq<Sent>)
    requires forall i :: 0 <= i < |sent| ==> sent[i].Control?
    ensures Forwarded(sent) == multiset{}
    decreases |sent|
  {
    if sent != [] {
      ControlsForwardNothing(sent[..|sent| - 1]);
    }
  }

  /** What was received has been forwarded, is held, or was dropped. */
  ghost predicate Conserves(r: Relay) {
    Forwarded(r.sent) + InHand(r.held) <= multiset(r.received)
  }

  lemma TakingInConserves(r: Relay, q: Relay, x: (bytes, Addr), more: seq<Sent>)
    requires Conserves(r) && r.held.Nothing? && InHand(q.held) <= multiset{x}
    requires q.received == r.received + [x] && q.sent == r.sent + more && forall i :: 0 <= i < |more| ==> more[i].Control?
    ensures Conserves(q)
  {
    ForwardedAfter(r.sent, more);
    ControlsForwardNothing(more);
  }

  lemma LettingGoConserves(r: Relay, q: Relay, more: seq<Sent>)
    requires Conserves(r) && q.held.Nothing? && q.received == r.received && q.sent == r.sent + more
    requires Forwarded(more) <= InHand(r.held)
    ensures Conserves(q)
  {
    ForwardedAfter(r.sent, more);
  }

  /** A packet received is noted, perhaps held, and answered with control packets at most. */
  lemma ReceiveShape(r: Relay, step: Step) returns (more: seq<Sent>)
    requires step.Receive? && r.held.Nothing?
    ensures var q := Next(r, step);
            && q.received == r.received + [(step.packet, step.from)] && q.sent == r.sent + more
            && (forall i :: 0 <= i < |more| ==> more[i].Control?)
            && (q.held.Holding? ==> q.held.packet == step.packet && q.held.from == step.from)
  {
    more := [];
    if Connects(step) {
      var (t, p) := Connected(r.table, step.token.value, step.from, step.now, step.newId);
      more := if p < |t.arena| then Acks(t.arena[p], p, step.from) else [];
    } else {
      assert r.sent == r.sent + [];
    }
  }

  lemma ReceiveConserves(r: Relay, step: Step)
    requires Conserves(r) && step.Receive? && r.held.Nothing?
    ensures Conserves(Next(r, step))
  {
    var more := ReceiveShape(r, step);
    var q := Next(r, step);
    TakingInConserves(r, q, (step.packet, step.from), more);
  }

  lemma NextConserves(r: Relay, step: Step)
    requires Conserves(r) && Enabled(r, step)
    ensures Conserves(Next(r, step))
  {
    match step
    case Receive(_, _, _, _, _) => ReceiveConserves(r, step);
    case Finish(now) => FinishConserves(r, now);
    case Sweep(now) =>
  }

  lemma FinishConserves(r: Relay, now: int)
    requires Conserves(r)
    ensures Conserves(Finished(r, now))
  {
    var q := Finished(r, now);
    if q.sent == r.sent {
      assert r.sent == r.sent + [];
      LettingGoConserves(r, q, []);
    } else {
      var e := q.sent[|r.sent|];
      assert q.sent == r.sent + [e];
      LettingGoConserves(r, q, [e]);
    }
  }

  /** In every run, a packet is forwarded at most as often as it was received from that
    sender. */
  lemma {:induction false} RunsForwardOnce(relays: seq<Relay>, steps: seq<Step>, n: nat)
    requires Run(relays, steps) && n < |relays|
    ensures Conserves(relays[n])
  {
    if n > 0 {
      RunsForwardOnce(relays, steps, n - 1);
      assert Steps(relays, steps, n - 1);
      NextConserves(relays[n - 1], steps[n - 1]);
    }
  }

  lemma GrowsTransitive(a: seq<Session>, b: seq<Session>, c: seq<Session>)
    requires Grows(a, b) && Grows(b, c)
    ensures Grows(a, c)
  {}

  lemma {:induction false} GrowsAlong(arenas: seq<seq<Session>>, m: nat, n: nat)
    requires m <= n < |arenas|
    requires forall i :: 0 <= i < |arenas| - 1 ==> Grows(arenas[i], arenas[i + 1])
    ensures Grows(arenas[m], arenas[n])
    decreases n
  {
    if m < n {
      GrowsAlong(arenas, m, n - 1);
      GrowsTransitive(arenas[m], arenas[n - 1], arenas[n]);
    }
  }

  lemma StepGrows(relays: seq<Relay>, steps: seq<Step>, i: nat)
    requires Run(relays, steps) && i < |steps|
    ensures Grows(relays[i].table.arena, relays[i + 1].table.arena)
  {
    assert Steps(relays, steps, i);
    NextGrows(relays[i], steps[i], relays[i + 1]);
  }

  /** Once set, a session's id, token and peers never change. */
  lemma PeersNeverChange(relays: seq<Relay>, steps: seq<Step>, m: nat, n: nat)
    requires Run(relays, steps) && m <= n < |relays|
    ensures Grows(relays[m].table.arena, relays[n].table.arena)
  {
    var arenas := seq(|relays|, i requires 0 <= i < |relays| => relays[i].table.arena);
    forall i | 0 <= i < |arenas| - 1
      ensures Grows(arenas[i], arenas[i + 1])
    {
      StepGrows(relays, steps, i);
    }
    GrowsAlong(arenas, m, n);
  }

  // ---- A session's peers ----

  function FirstOther(a: Addr, rest: seq<Addr>): Option<Addr> {
    if rest == [] then None
    else if !SameAddr(a, rest[0]) then Some(rest[0])
    else FirstOther(a, rest[1..])
  }

  /** The peers are the first two distinct addresses of the list. */
  ghost predicate PeersAreFirstTwo(s: Session, joined: seq<Addr>) {
    && joined != []
    && s.peerA == Some(joined[0])
    && s.peerB == FirstOther(joined[0], joined[1..])
  }

  lemma {:induction false} FirstOtherDiffers(a: Addr, rest: seq<Addr>)
    ensures FirstOther(a, rest).Some? ==> !SameAddr(a, FirstOther(a, rest).value)
  {
    if rest != [] {
      FirstOtherDiffers(a, rest[1..]);
    }
  }

  lemma {:induction false} FirstOtherExtends(a: Addr, rest: seq<Addr>, x: Addr)
    ensures FirstOther(a, rest + [x]) ==
              if FirstOther(a, rest).Some? then FirstOther(a, rest)
              else if !SameAddr(a, x) then Some(x) else None
  {
    if rest == [] {
      assert rest + [x] == [x];
    } else {
      FirstOtherExtends(a, rest[1..], x);
      assert (rest + [x])[1..] == rest[1..] + [x];
    }
  }

  lemma JoinKeepsFirstTwo(s: Session, joined: seq<Addr>, peer: Addr, now: int)
    requires PeersAreFirstTwo(s, joined)
    ensures PeersAreFirstTwo(Joined(s, peer, now), joined + [peer])
  {
    FirstOtherExtends(joined[0], joined[1..], peer);
    assert (joined + [peer])[1..] == joined[1..] + [peer];
  }

  /** A connect that carries a token. */
  ghost predicate Connects(step: Step) {
    && step.Receive? && |step.packet| >= HEADER_LEN && KindOf(step.packet) == CONNECT
    && step.token.Some? && step.token.value != ""
  }

  /** The session at p is in the table. */
  ghost predicate Live(t: Table, p: nat) {
    p < |t.arena| && t.arena[p].id in t.sessions && t.sessions[t.arena[p].id] == p
  }

  /** The step is a connect carrying the token of p, p being in the table. */
  ghost predicate JoinsAt(step: Step, after: Table, p: nat) {
    Connects(step) && Live(after, p) && after.arena[p].token == step.token.value
  }

  /** Connects with a session's token reach that session and no other; without one, a
    session is created. */
  lemma ConnectAt(t: Table, token: string, peer: Addr, now: int, newId: Id, p: nat)
    requires Inverse(t) && newId !in t.sessions
    ensures var u := Connected(t, token, peer, now, newId).0;
            p < |u.arena| ==>
              if Live(u, p) && u.arena[p].token == token then
                u.arena[p] == if p < |t.arena| then Joined(t.arena[p], peer, now)
                              else Session(newId, token, Some(peer), None, now, now)
              else p < |t.arena| && u.arena[p] == t.arena[p]
  {
    if Known(t, token) {
      assert TokenLinked(t, token) && IdLinked(t, t.byToken[token]);
    } else if Live(t, p) {
      assert IdLinked(t, t.arena[p].id) && (token in t.byToken ==> TokenLinked(t, token));
    }
  }

  /** Every accepted connect reaches exactly one session. */
  lemma ConnectReachesOne(r: Relay, step: Step) returns (p: nat)
    requires Sound(r) && Enabled(r, step) && Connects(step)
    ensures var after := Next(r, step).table;
            JoinsAt(step, after, p) && forall q: nat :: JoinsAt(step, after, q) ==> q == p
  {
    var after := Next(r, step).table;
    ConnectKeepsInverse(r.table, step.token.value, step.from, step.now, step.newId);
    p := Connected(r.table, step.token.value, step.from, step.now, step.newId).1;
    assert TokenLinked(after, step.token.value) && IdLinked(after, after.byToken[step.token.value]);
    forall q: nat | JoinsAt(step, after, q)
      ensures q == p
    {
      assert IdLinked(after, after.arena[q].id);
    }
  }

  /** Data and pings whose session was looked up as p. */
  ghost predicate TouchesAt(r: Relay, step: Step, p: nat) {
    && step.Finish? && r.held.Holding? && r.held.session == p
    && |r.held.packet| >= HEADER_LEN && KindOf(r.held.packet) in {DATA, PING}
  }

  /** A session object after any step: joined by a connect with its token, touched by
    data or ping, and otherwise as it was. */
  lemma SessionAfter(r: Relay, step: Step, p: nat)
    requires Inverse(r.table) && HeldOk(r) && Enabled(r, step) && p < |Next(r, step).table.arena|
    ensures var after := Next(r, step).table;
            if JoinsAt(step, after, p) then
              after.arena[p] == if p < |r.table.arena| then Joined(r.table.arena[p], step.from, step.now)
                                else Session(step.newId, step.token.value, Some(step.from), None, step.now, step.now)
            else
              && p < |r.table.arena|
              && after.arena[p] == if TouchesAt(r, step, p) then r.table.arena[p].(last := step.now) else r.table.arena[p]
  {
    match step
    case Receive(packet, from, token, now, newId) =>
      if Connects(step) {
        ConnectAt(r.table, token.value, from, now, newId, p);
      }
    case Finish(now) =>
    case Sweep(now) =>
  }

  /** The senders, in order, of the first n steps' connects that carried the token of p
    while p was in the table. */
  ghost function Senders(relays: seq<Relay>, steps: seq<Step>, n: nat, p: nat): seq<Addr>
    requires n <= |steps| < |relays|
  {
    if n == 0 then []
    else
      Senders(relays, steps, n - 1, p)
      + (if JoinsAt(steps[n - 1], relays[n].table, p) then [steps[n - 1].from] else [])
  }

  lemma {:induction false} NoSendersBefore(relays: seq<Relay>, steps: seq<Step>, n: nat, p: nat)
    requires Run(relays, steps) && n < |relays| && |relays[n].table.arena| <= p
    ensures Senders(relays, steps, n, p) == []
  {
    if n > 0 {
      StepGrows(relays, steps, n - 1);
      NoSendersBefore(relays, steps, n - 1, p);
    }
  }

  lemma StepKeepsFirstTwo(r: Relay, step: Step, q: Relay, p: nat, before: seq<Addr>)
    requires Inverse(r.table) && HeldOk(r) && Enabled(r, step) && q == Next(r, step) && p < |q.table.arena|
    requires if p < |r.table.arena| then PeersAreFirstTwo(r.table.arena[p], before) else before == []
    ensures PeersAreFirstTwo(q.table.arena[p], before + (if JoinsAt(step, q.table, p) then [step.from] else []))
  {
    SessionAfter(r, step, p);
    if JoinsAt(step, q.table, p) && p < |r.table.arena| {
      JoinKeepsFirstTwo(r.table.arena[p], before, step.from, step.now);
    }
    assert before + [] == before;
  }

  /** A session's peers are the first two distinct addresses to connect with its token. */
  lemma {:induction false} PeersAreFirstToConnect(relays: seq<Relay>, steps: seq<Step>, n: nat, p: nat)
    requires Run(relays, steps) && n < |relays| && p < |relays[n].table.arena|
    ensures PeersAreFirstTwo(relays[n].table.arena[p], Senders(relays, steps, n, p))
  {
    if n > 0 {
      var before := Senders(relays, steps, n - 1, p);
      RunsAreSound(relays, steps, n - 1);
      if p < |relays[n - 1].table.arena| {
        PeersAreFirstToConnect(relays, steps, n - 1, p);
      } else {
        NoSendersBefore(relays, steps, n - 1, p);
      }
      assert Steps(relays, steps, n - 1);
      StepKeepsFirstTwo(relays[n - 1], steps[n - 1], relays[n], p, before);
    }
  }

  /** In every reachable state a session's two peers are different, so nobody is sent
    its own packets. */
  lemma PeersAreDistinct(relays: seq<Relay>, steps: seq<Step>, n: nat, p: nat)
    requires Run(relays, steps) && n < |relays| && p < |relays[n].table.arena|
    ensures var s := relays[n].table.arena[p];
            s.peerA.Some? && (s.peerB.Some? ==> !SameAddr(s.peerA.value, s.peerB.value))
  {
    PeersAreFirstToConnect(relays, steps, n, p);
    var joined := Senders(relays, steps, n, p);
    FirstOtherDiffers(joined[0], joined[1..]);
  }

  // ---- What is sent, exactly ----

  /** What a step has to send: for data from one peer of a pair, that packet to the other, and
    nothing for data from anybody else; a pong for a ping; and for a connect, its answer
    after a notice to both peers once there are two. */
  ghost predicate Emits(r: Relay, step: Step, after: Table, out: seq<Sent>) {
    if Connects(step) then
      exists p: nat :: JoinsAt(step, after, p) && Answers(after.arena[p], p, step.from, out)
    else if step.Finish? && r.held.Holding? && r.held.session < |r.table.arena| && |r.held.packet| >= HEADER_LEN then
      var p, from := r.held.session, r.held.from;
      var s, kind := r.table.arena[p], KindOf(r.held.packet);
      if kind == DATA then
        || (exists to :: Paired(s, from, to) && out == [Data(p, r.held.packet, from, to)])
        || (out == [] && forall to :: !Paired(s, from, to))
      else if kind == PING then out == [Control(p, Pong, from)]
      else out == []
    else out == []
  }

  ghost predicate Answers(s: Session, p: nat, from: Addr, out: seq<Sent>) {
    if s.peerB.None? then out == [Control(p, Waiting, from)]
    else
      && s.peerA.Some? && |out| == 3 && out[2] == Control(p, BothHere, from)
      && out[0] == Control(p, BothHere, s.peerA.value) && out[1] == Control(p, BothHere, s.peerB.value)
  }

  lemma ConnectEmits(r: Relay, step: Step) returns (out: seq<Sent>)
    requires Sound(r) && Enabled(r, step) && Connects(step)
    requires forall p :: 0 <= p < |r.table.arena| ==> r.table.arena[p].peerA.Some?
    ensures Next(r, step).sent == r.sent + out && Emits(r, step, Next(r, step).table, out)
  {
    var p := ConnectReachesOne(r, step);
    var after := Next(r, step).table;
    var (t, q) := Connected(r.table, step.token.value, step.from, step.now, step.newId);
    ConnectAt(r.table, step.token.value, step.from, step.now, step.newId, p);
    ConnectTarget(r.table, step.token.value, step.from, step.now, step.newId);
    out := Acks(t.arena[q], q, step.from);
    assert Answers(after.arena[p], p, step.from, out);
  }

  lemma ConnectTarget(t: Table, token: string, peer: Addr, now: int, newId: Id)
    requires Inverse(t) && newId !in t.sessions
    ensures var (u, q) := Connected(t, token, peer, now, newId);
            Live(u, q) && u.arena[q].token == token
  {
    if Known(t, token) {
      assert TokenLinked(t, token) && IdLinked(t, t.byToken[token]);
    }
  }

  lemma FinishEmits(r: Relay, now: int) returns (out: seq<Sent>)
    requires Sound(r) && r.held.Holding?
    ensures Finished(r, now).sent == r.sent + out && Emits(r, Finish(now), Finished(r, now).table, out)
  {
    var p, from := r.held.session, r.held.from;
    var s := r.table.arena[p];
    var to := Destination(s, from);
    out := [];
    assert r.sent + [] == r.sent;
    if KindOf(r.held.packet) == DATA {
      if to.Some? {
        out := [Data(p, r.held.packet, from, to.value)];
        assert Paired(s, from, to.value);
      }
    } else if KindOf(r.held.packet) == PING {
      out := [Control(p, Pong, from)];
    }
  }

  /** In every run, each step sends exactly what it has to. */
  lemma RunsEmit(relays: seq<Relay>, steps: seq<Step>, i: nat) returns (out: seq<Sent>)
    requires Run(relays, steps) && i < |steps|
    ensures relays[i + 1].sent == relays[i].sent + out && Emits(relays[i], steps[i], relays[i + 1].table, out)
  {
    RunsAreSound(relays, steps, i);
    assert Steps(relays, steps, i);
    if Connects(steps[i]) {
      forall p | 0 <= p < |relays[i].table.arena|
        ensures relays[i].table.arena[p].peerA.Some?
      {
        PeersAreDistinct(relays, steps, i, p);
      }
      out := ConnectEmits(relays[i], steps[i]);
    } else if steps[i].Finish? {
      out := FinishEmits(relays[i], steps[i].now);
    } else {
      out := [];
      assert relays[i].sent + [] == relays[i].sent;
    }
  }

  /** A packet that names a session in the table, of a kind that needs one, is taken up. */
  lemma LookupHolds(r: Relay, step: Step, p: nat)
    requires step.Receive? && |step.packet| >= HEADER_LEN && KindOf(step.packet) in {DATA, PING, DISCONNECT}
    requires Live(r.table, p) && r.table.arena[p].id == KeyOf(IdOf(step.packet))
    ensures var q := Next(r, step);
            q.held == Holding(p, step.packet, step.from) && q.sent == r.sent && q.table == r.table
  {}

  lemma {:induction false} HeldThroughSweeps(relays: seq<Relay>, steps: seq<Step>, i: nat, j: nat)
    requires Run(relays, steps) && i <= j < |relays| && forall k :: i <= k < j ==> steps[k].Sweep?
    ensures relays[j].held == relays[i].held && relays[j].sent == relays[i].sent
    ensures relays[j].table.arena == relays[i].table.arena
    decreases j
  {
    if i < j {
      HeldThroughSweeps(relays, steps, i, j - 1);
      assert Steps(relays, steps, j - 1);
    }
  }

  /** Delivery: a data packet that names a session in the table and comes from one peer of a
    pair is sent on, once and unchanged, to the other, however many sweeps intervene; one
    from anybody else is not sent on. */
  lemma DataIsDelivered(relays: seq<Relay>, steps: seq<Step>, i: nat, j: nat, p: nat)
    requires Run(relays, steps) && i < j < |steps|
    requires steps[i].Receive? && |steps[i].packet| >= HEADER_LEN && KindOf(steps[i].packet) == DATA
    requires Live(relays[i].table, p) && relays[i].table.arena[p].id == KeyOf(IdOf(steps[i].packet))
    requires (forall k :: i < k < j ==> steps[k].Sweep?) && steps[j].Finish?
    ensures var s, packet, from := relays[i].table.arena[p], steps[i].packet, steps[i].from;
            && (forall to :: Paired(s, from, to) ==> relays[j + 1].sent == relays[i].sent + [Data(p, packet, from, to)])
            && ((forall to :: !Paired(s, from, to)) ==> relays[j + 1].sent == relays[i].sent)
  {
    assert Steps(relays, steps, i);
    LookupHolds(relays[i], steps[i], p);
    HeldThroughSweeps(relays, steps, i + 1, j);
    PeersAreDistinct(relays, steps, i, p);
    var out := RunsEmit(relays, steps, j);
    var s, from := relays[i].table.arena[p], steps[i].from;
    assert relays[j].table.arena[p] == s;
    forall to, x | Paired(s, from, to) && Paired(s, from, x)
      ensures to == x
    {
      OnlyOneOther(s, from, to, x);
    }
  }

  lemma OnlyOneOther(s: Session, from: Addr, to: Addr, x: Addr)
    requires Paired(s, from, to) && Paired(s, from, x) && !SameAddr(s.peerA.value, s.peerB.value)
    ensures to == x
  {}

  // ---- Who leaves the table, and when ----

  /** A disconnect that names the session. */
  ghost predicate Disconnects(r: Relay, step: Step, id: Id) {
    && step.Finish? && r.held.Holding? && |r.held.packet| >= HEADER_LEN
    && KindOf(r.held.packet) == DISCONNECT && KeyOf(IdOf(r.held.packet)) == id
  }

  /** The only two ways out: idle for more than five minutes at a sweep, or a
    disconnect. */
  ghost predicate Evicts(r: Relay, step: Step, id: Id)
    requires id in r.table.sessions
  {
    Disconnects(r, step, id) || (step.Sweep? && Stale(r.table, id, step.now))
  }

  /** An entry stays as it is, or goes. */
  ghost predicate StaysIff(t: Table, u: Table, id: Id, stays: bool) {
    && (id in u.sessions <==> stays)
    && (stays && id in t.sessions ==> u.sessions[id] == t.sessions[id])
  }

  lemma ConnectEvictsNothing(t: Table, token: string, peer: Addr, now: int, newId: Id, id: Id)
    requires id in t.sessions && newId !in t.sessions
    ensures StaysIff(t, Connected(t, token, peer, now, newId).0, id, true)
  {}

  lemma RemoveEvictsOne(t: Table, gone: Id, id: Id)
    requires Inverse(t) && id in t.sessions
    ensures StaysIff(t, Removed(t, gone), id, gone != id)
  {}

  lemma SweepEvictsStale(t: Table, now: int, id: Id)
    requires id in t.sessions
    ensures StaysIff(t, Swept(t, now), id, !Stale(t, id, now))
  {
    assert id in StaleIds(t, now) <==> Stale(t, id, now);
  }

  lemma LeavesExactlyWhenEvicted(r: Relay, step: Step, id: Id)
    requires Sound(r) && Enabled(r, step) && id in r.table.sessions
    ensures StaysIff(r.table, Next(r, step).table, id, !Evicts(r, step, id))
  {
    match step
    case Receive(packet, from, token, now, newId) =>
      if token.Some? {
        ConnectEvictsNothing(r.table, token.value, from, now, newId, id);
      }
    case Finish(now) => RemoveEvictsOne(r.table, r.table.arena[r.held.session].id, id);
    case Sweep(now) => SweepEvictsStale(r.table, now, id);
  }

  // ---- Activity ----

  /** Step k was a connect, data or ping for the session at p. */
  ghost predicate ActiveAt(relays: seq<Relay>, steps: seq<Step>, k: nat, p: nat)
    requires k < |steps| < |relays|
  {
    JoinsAt(steps[k], relays[k + 1].table, p) || TouchesAt(relays[k], steps[k], p)
  }

  ghost function LatestActivity(relays: seq<Relay>, steps: seq<Step>, n: nat, p: nat): Option<nat>
    requires n <= |steps| < |relays|
  {
    if n == 0 then None
    else if ActiveAt(relays, steps, n - 1, p) then Some(n - 1)
    else LatestActivity(relays, steps, n - 1, p)
  }

  lemma {:induction false} LatestIsLatest(relays: seq<Relay>, steps: seq<Step>, n: nat, p: nat, j: nat)
    requires j < n <= |steps| < |relays| && ActiveAt(relays, steps, j, p)
    ensures var k := LatestActivity(relays, steps, n, p);
            k.Some? && j <= k.value < n && ActiveAt(relays, steps, k.value, p)
  {
    if !ActiveAt(relays, steps, n - 1, p) {
      LatestIsLatest(relays, steps, n - 1, p, j);
    }
  }

  /** The idle clock of a session shows the time of its latest activity. */
  lemma {:induction false} ClockShowsLatestActivity(relays: seq<Relay>, steps: seq<Step>, n: nat, p: nat)
    requires Run(relays, steps) && n < |relays| && p < |relays[n].table.arena|
    ensures var k := LatestActivity(relays, steps, n, p);
            k.Some? && k.value < n && ActiveAt(relays, steps, k.value, p) && relays[n].table.arena[p].last == steps[k.value].now
  {
    if n > 0 {
      RunsAreSound(relays, steps, n - 1);
      assert Steps(relays, steps, n - 1);
      SessionAfter(relays[n - 1], steps[n - 1], p);
      if !ActiveAt(relays, steps, n - 1, p) {
        ClockShowsLatestActivity(relays, steps, n - 1, p);
      }
    }
  }

  lemma LiveUnlessEvicted(relays: seq<Relay>, steps: seq<Step>, i: nat, p: nat)
    requires Run(relays, steps) && i < |steps| && Live(relays[i].table, p)
    ensures Live(relays[i + 1].table, p) <==> !Evicts(relays[i], steps[i], relays[i].table.arena[p].id)
  {
    RunsAreSound(relays, steps, i);
    StepGrows(relays, steps, i);
    assert Steps(relays, steps, i);
    LeavesExactlyWhenEvicted(relays[i], steps[i], relays[i].table.arena[p].id);
  }

  /** A sweep removes a session exactly when its latest connect, data or ping is more than
    five minutes ago. */
  lemma SweptExactlyWhenIdle(relays: seq<Relay>, steps: seq<Step>, i: nat, p: nat)
    requires Run(relays, steps) && i < |steps| && steps[i].Sweep? && Live(relays[i].table, p)
    ensures var k := LatestActivity(relays, steps, i, p);
            k.Some? && k.value < i && (Live(relays[i + 1].table, p) <==> steps[i].now - steps[k.value].now <= IDLE_TIMEOUT)
  {
    LiveUnlessEvicted(relays, steps, i, p);
    ClockShowsLatestActivity(relays, steps, i, p);
  }

  /** The critical sections read the clock in order; a sweep may have read it earlier. */
  ghost predicate ClockRuns(steps: seq<Step>) {
    forall i, j :: 0 <= i <= j < |steps| && !steps[i].Sweep? && !steps[j].Sweep? ==> steps[i].now <= steps[j].now
  }

  /** Some connect, data or ping for p came before step i, at most five minutes earlier. */
  ghost predicate RecentlyActive(relays: seq<Relay>, steps: seq<Step>, i: nat, p: nat)
    requires i < |steps| < |relays|
  {
    exists k: nat :: k < i && ActiveAt(relays, steps, k, p) && steps[i].now - steps[k].now <= IDLE_TIMEOUT
  }

  /** No disconnect names p at step i, and a sweep follows recent traffic. */
  ghost predicate Sustained(relays: seq<Relay>, steps: seq<Step>, i: nat, p: nat, id: Id)
    requires i < |steps| < |relays|
  {
    !Disconnects(relays[i], steps[i], id) && (steps[i].Sweep? ==> RecentlyActive(relays, steps, i, p))
  }

  lemma RecentActivityKeeps(relays: seq<Relay>, steps: seq<Step>, i: nat, p: nat)
    requires Run(relays, steps) && ClockRuns(steps) && i < |steps| && steps[i].Sweep?
    requires Live(relays[i].table, p) && RecentlyActive(relays, steps, i, p)
    ensures Live(relays[i + 1].table, p)
  {
    var j: nat :| j < i && ActiveAt(relays, steps, j, p) && steps[i].now - steps[j].now <= IDLE_TIMEOUT;
    LatestIsLatest(relays, steps, i, p, j);
    SweptExactlyWhenIdle(relays, steps, i, p);
  }

  lemma StepSustains(relays: seq<Relay>, steps: seq<Step>, i: nat, p: nat, id: Id)
    requires Run(relays, steps) && ClockRuns(steps) && i < |steps| && Live(relays[i].table, p)
    requires relays[i].table.arena[p].id == id && Sustained(relays, steps, i, p, id)
    ensures Live(relays[i + 1].table, p) && relays[i + 1].table.arena[p].id == id
  {
    StepGrows(relays, steps, i);
    if steps[i].Sweep? {
      RecentActivityKeeps(relays, steps, i, p);
    } else {
      LiveUnlessEvicted(relays, steps, i, p);
    }
  }

  /** A session with traffic in the five minutes before every sweep, which no disconnect
    names, survives any number of sweeps. */
  lemma {:induction false} ActiveSessionsSurvive(relays: seq<Relay>, steps: seq<Step>, m: nat, n: nat, p: nat)
    requires Run(relays, steps) && ClockRuns(steps) && m <= n < |relays| && Live(relays[m].table, p)
    requires forall i :: m <= i < n ==> Sustained(relays, steps, i, p, relays[m].table.arena[p].id)
    ensures Live(relays[n].table, p) && relays[n].table.arena[p].id == relays[m].table.arena[p].id
    decreases n
  {
    if m < n {
      ActiveSessionsSurvive(relays, steps, m, n - 1, p);
      StepSustains(relays, steps, n - 1, p, relays[m].table.arena[p].id);
    }
  }
}
