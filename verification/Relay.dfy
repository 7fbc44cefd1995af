/** The session table of relay/internal/relay_server.go.

  Session objects live in an arena and are referred to by position, for a handler may
  still hold a session that has left the table.  Times are integers, in nanoseconds. */
module RelayTable {
  import opened Wrappers
  import opened NetIP
  import opened Sets

  const IDLE_TIMEOUT: int := 300_000_000_000
  const ID_LEN: nat := 16
  const HEADER_LEN: nat := 17

  const CONNECT: byte := 1
  const DATA: byte := 2
  const DISCONNECT: byte := 3
  const PING: byte := 4

  /** A session ID as the map key Go makes of it: the string of its 16 bytes. */
  type Id = string

  /** net.UDPAddr; ip is in its 4-byte or 16-byte form. */
  datatype Addr = Addr(ip: bytes, port: nat, zone: string)

  datatype Session = Session(id: Id, token: string, peerA: Option<Addr>, peerB: Option<Addr>, created: int, last: int)

  /** gauge is None when no metrics are attached. */
  datatype Table = Table(arena: seq<Session>, sessions: map<Id, nat>, byToken: map<string, Id>, gauge: Option<nat>)

  // ---- Addresses and packets ----

  predicate SameAddr(a: Addr, b: Addr) {
    a.port == b.port && Canonical(a.ip) == Canonical(b.ip)
  }

  /** Equal ports and, by net.IP.Equal, equal addresses: the same bytes, or the same IPv4
    address in two layouts. */
  lemma SameAddrExactlyWhen(a: Addr, b: Addr)
    ensures SameAddr(a, b) <==> a.port == b.port && (a.ip == b.ip || (To4(a.ip) != [] && To4(a.ip) == To4(b.ip)))
  {}

  /** Where a packet from one peer of a session goes. */
  function Destination(s: Session, from: Addr): Option<Addr> {
    if s.peerA.Some? && SameAddr(s.peerA.value, from) then s.peerB
    else if s.peerB.Some? && SameAddr(s.peerB.value, from) then s.peerA
    else None
  }

  function KeyOf(raw: bytes): (id: Id)
    ensures |id| == |raw|
  {
    seq(|raw|, i requires 0 <= i < |raw| => raw[i] as char)
  }

  function Framed(kind: byte, id: bytes, payload: bytes): bytes {
    [kind] + id + payload
  }

  function KindOf(packet: bytes): byte
    requires |packet| >= HEADER_LEN
  {
    packet[0]
  }

  function IdOf(packet: bytes): bytes
    requires |packet| >= HEADER_LEN
  {
    packet[1..HEADER_LEN]
  }

  function PayloadOf(packet: bytes): bytes
    requires |packet| >= HEADER_LEN
  {
    packet[HEADER_LEN..]
  }

  /** Parsing a framed packet recovers its type, session ID and payload. */
  lemma FramingRoundTrip(kind: byte, id: bytes, payload: bytes)
    requires |id| == ID_LEN
    ensures var p := Framed(kind, id, payload);
            |p| >= HEADER_LEN && KindOf(p) == kind && IdOf(p) == id && PayloadOf(p) == payload
  {}

  // ---- Operations, one per critical section ----

  function Gauged(t: Table): Table {
    if t.gauge.Some? then t.(gauge := Some(|t.sessions|)) else t
  }

  function Known(t: Table, token: string): bool {
    token in t.byToken && t.byToken[token] in t.sessions && t.sessions[t.byToken[token]] < |t.arena|
  }

  /** An existing session takes a second, different address if it has room for one. */
  function Joined(s: Session, peer: Addr, now: int): Session {
    if s.peerA.None? then s.(last := now, peerA := Some(peer))
    else if !SameAddr(s.peerA.value, peer) && s.peerB.None? then s.(last := now, peerB := Some(peer))
    else s.(last := now)
  }

  function Connected(t: Table, token: string, peer: Addr, now: int, newId: Id): (Table, nat) {
    if Known(t, token) then
      var p := t.sessions[t.byToken[token]];
      (Gauged(t.(arena := t.arena[p := Joined(t.arena[p], peer, now)])), p)
    else
      var s := Session(newId, token, Some(peer), None, now, now);
      (Gauged(Table(t.arena + [s], t.sessions[newId := |t.arena|], t.byToken[token := newId], t.gauge)), |t.arena|)
  }

  function Touched(t: Table, p: nat, now: int): Table
    requires p < |t.arena|
  {
    t.(arena := t.arena[p := t.arena[p].(last := now)])
  }

  function Removed(t: Table, id: Id): Table {
    if id in t.sessions && t.sessions[id] < |t.arena| then
      Gauged(t.(sessions := t.sessions - {id}, byToken := t.byToken - {t.arena[t.sessions[id]].token}))
    else t
  }

  predicate Stale(t: Table, id: Id, now: int)
    requires id in t.sessions
  {
    t.sessions[id] < |t.arena| && now - t.arena[t.sessions[id]].last > IDLE_TIMEOUT
  }

  ghost function StaleIds(t: Table, now: int): set<Id> {
    set id | id in t.sessions && Stale(t, id, now)
  }

  ghost function TokensOf(t: Table, ids: set<Id>): set<string> {
    set id | id in ids && id in t.sessions && t.sessions[id] < |t.arena| :: t.arena[t.sessions[id]].token
  }

  ghost function Dropped(t: Table, ids: set<Id>): Table {
    t.(sessions := t.sessions - ids, byToken := t.byToken - TokensOf(t, ids))
  }

  ghost function Swept(t: Table, now: int): Table {
    if StaleIds(t, now) == {} then t else Gauged(Dropped(t, StaleIds(t, now)))
  }

  // ---- The invariant ----

  ghost predicate IdLinked(t: Table, id: Id)
    requires id in t.sessions
  {
    && t.sessions[id] < |t.arena| && t.arena[t.sessions[id]].id == id
    && t.arena[t.sessions[id]].token in t.byToken && t.byToken[t.arena[t.sessions[id]].token] == id
  }

  ghost predicate TokenLinked(t: Table, token: string)
    requires token in t.byToken
  {
    && t.byToken[token] in t.sessions && t.sessions[t.byToken[token]] < |t.arena|
    && t.arena[t.sessions[t.byToken[token]]].token == token
  }

  ghost predicate Linked(t: Table) {
    && (forall id :: id in t.sessions ==> IdLinked(t, id))
    && (forall token :: token in t.byToken ==> TokenLinked(t, token))
  }

  /** The two maps are inverse to each other through the session objects, and the gauge
    counts the sessions. */
  ghost predicate Inverse(t: Table) {
    Linked(t) && (t.gauge.Some? ==> t.gauge.value == |t.sessions|)
  }

  lemma CreateKeepsLinked(t: Table, s: Session)
    requires Linked(t) && s.id !in t.sessions && s.token !in t.byToken
    ensures Linked(t.(arena := t.arena + [s], sessions := t.sessions[s.id := |t.arena|], byToken := t.byToken[s.token := s.id]))
  {}

  /** Rewriting a session object in place, keeping its id and token. */
  lemma UpdateKeepsLinked(t: Table, p: nat, s: Session)
    requires Linked(t) && p < |t.arena| && s.id == t.arena[p].id && s.token == t.arena[p].token
    ensures Linked(t.(arena := t.arena[p := s]))
  {}

  lemma DropKeepsLinked(t: Table, ids: set<Id>)
    requires Linked(t)
    ensures Linked(Dropped(t, ids))
  {}

  lemma ConnectKeepsInverse(t: Table, token: string, peer: Addr, now: int, newId: Id)
    requires Inverse(t) && newId !in t.sessions
    ensures Inverse(Connected(t, token, peer, now, newId).0)
  {
    if token in t.byToken {
      assert TokenLinked(t, token);
      var p := t.sessions[t.byToken[token]];
      UpdateKeepsLinked(t, p, Joined(t.arena[p], peer, now));
    } else {
      CreateKeepsLinked(t, Session(newId, token, Some(peer), None, now, now));
    }
  }

  lemma TouchKeepsInverse(t: Table, p: nat, now: int)
    requires Inverse(t) && p < |t.arena|
    ensures Inverse(Touched(t, p, now))
  {}

  lemma RemoveKeepsInverse(t: Table, id: Id)
    requires Inverse(t)
    ensures Inverse(Removed(t, id))
  {
    if id in t.sessions {
      assert IdLinked(t, id);
      DropKeepsLinked(t, {id});
      assert TokensOf(t, {id}) == {t.arena[t.sessions[id]].token};
    }
  }

  lemma SweepKeepsInverse(t: Table, now: int)
    requires Inverse(t)
    ensures Inverse(Swept(t, now))
  {
    DropKeepsLinked(t, StaleIds(t, now));
  }

  /** The rule is an involution: the reply to what was forwarded goes back to where it
    came from. */
  lemma DestinationInvolution(s: Session, from: Addr)
    requires Destination(s, from).Some?
    ensures var back := Destination(s, Destination(s, from).value);
            back.Some? && SameAddr(back.value, from) && Destination(s, back.value) == Destination(s, from)
  {}

  // ---- The server object ----

  class RelayServer {
    var arena: seq<Session>
    var sessions: map<Id, nat>
    var byToken: map<string, Id>
    var gauge: Option<nat>

    ghost function View(): Table
      reads this
    {
      Table(arena, sessions, byToken, gauge)
    }

    constructor (metered: bool)
      ensures View() == Table([], map[], map[], if metered then Some(0) else None)
      ensures Inverse(View())
    {
      arena, sessions, byToken := [], map[], map[];
      gauge := if metered then Some(0) else None;
    }

    method UpdateGauge()
      modifies this`gauge
      ensures View() == Gauged(old(View()))
    {
      if gauge.Some? {
        gauge := Some(|sessions|);
      }
    }

    method CreateSession(token: string, peer: Addr, now: int, newId: Id) returns (p: nat)
      requires Inverse(View()) && newId !in sessions
      modifies this
      ensures Inverse(View()) && (View(), p) == Connected(old(View()), token, peer, now, newId)
    {
      ConnectKeepsInverse(View(), token, peer, now, newId);
      if token in byToken && byToken[token] in sessions {
        p := sessions[byToken[token]];
        var s := arena[p].(last := now);
        if s.peerA.None? {
          s := s.(peerA := Some(peer));
        } else if !SameAddr(s.peerA.value, peer) && s.peerB.None? {
          s := s.(peerB := Some(peer));
        }
        arena := arena[p := s];
        UpdateGauge();
        return;
      }
      p := |arena|;
      arena := arena + [Session(newId, token, Some(peer), None, now, now)];
      sessions := sessions[newId := p];
      byToken := byToken[token := newId];
      UpdateGauge();
    }

    method GetSessionByID(id: Id) returns (p: Option<nat>)
      ensures p == if id in sessions then Some(sessions[id]) else None
    {
      p := if id in sessions then Some(sessions[id]) else None;
    }

    /** The part of forwardPacket under the lock; p may have left the table. */
    method ForwardPacket(p: nat, from: Addr, now: int) returns (to: Option<Addr>)
      requires Inverse(View()) && p < |arena|
      modifies this`arena
      ensures Inverse(View()) && View() == Touched(old(View()), p, now) && to == Destination(old(arena)[p], from)
    {
      TouchKeepsInverse(View(), p, now);
      arena := arena[p := arena[p].(last := now)];
      to := Destination(arena[p], from);
    }

    method RemoveSession(id: Id)
      requires Inverse(View())
      modifies this
      ensures Inverse(View()) && View() == Removed(old(View()), id)
    {
      RemoveKeepsInverse(View(), id);
      if id !in sessions {
        return;
      }
      var token := arena[sessions[id]].token;
      sessions := sessions - {id};
      byToken := byToken - {token};
      UpdateGauge();
    }

    method RemoveStaleSessions(now: int) returns (removed: nat)
      requires Inverse(View())
      modifies this
      ensures Inverse(View()) && View() == Swept(old(View()), now)
      ensures removed == |StaleIds(old(View()), now)|
    {
      SweepKeepsInverse(View(), now);
      var heap := arena;
      var drop := (p: nat) => p < |heap| && now - heap[p].last > IDLE_TIMEOUT;
      var tokenOf := (p: nat) => if p < |heap| then heap[p].token else "";
      SelectedAreStale(View(), now, drop, tokenOf);
      sessions, byToken, removed := DeleteSelected(sessions, byToken, drop, tokenOf);
      DroppedIsSwept(old(View()), View(), now, removed);
      if removed > 0 {
        UpdateGauge();
      }
    }
  }

  ghost function Selected<K, V>(m: map<K, V>, drop: V -> bool): set<K> {
    set k | k in m && drop(m[k])
  }

  ghost function Images<K, V, T>(m: map<K, V>, ks: set<K>, image: V -> T): set<T> {
    set k | k in ks && k in m :: image(m[k])
  }

  /** The sweep's loop over the two maps: it ranges in any order and deletes as it goes.
    drop decides by a session, image is its token. */
  method DeleteSelected<K(==), V, T(==)>(sessions: map<K, V>, byToken: map<T, K>, drop: V -> bool, image: V -> T)
      returns (live: map<K, V>, tokens: map<T, K>, removed: nat)
    ensures live == sessions - Selected(sessions, drop)
    ensures tokens == byToken - Images(sessions, Selected(sessions, drop), image)
    ensures removed == |Selected(sessions, drop)|
  {
    ghost var all := Selected(sessions, drop);
    ghost var gone: set<K> := {};
    live, tokens, removed := sessions, byToken, 0;
    var todo := sessions.Keys;
    while todo != {}
      invariant todo <= sessions.Keys
      invariant gone == all - todo
      invariant removed == |gone|
      invariant live == sessions - gone
      invariant tokens == byToken - Images(sessions, gone, image)
      decreases |todo|
    {
      var k :| k in todo;
      var session := sessions[k];
      Visited(all, todo, k);
      todo := todo - {k};
      if drop(session) {
        ImagesExtend(sessions, gone, image, k);
        MinusOne(sessions, gone, k);
        MinusOne(byToken, Images(sessions, gone, image), image(session));
        live, tokens := live - {k}, tokens - {image(session)};
        removed := removed + 1;
        gone := gone + {k};
      }
    }
    assert gone == all;
  }

  lemma ImagesExtend<K, V, T>(m: map<K, V>, ks: set<K>, image: V -> T, k: K)
    requires k in m
    ensures Images(m, ks + {k}, image) == Images(m, ks, image) + {image(m[k])}
  {}

  lemma SelectedAreStale(t: Table, now: int, drop: nat -> bool, image: nat -> string)
    requires forall p: nat :: drop(p) <==> p < |t.arena| && now - t.arena[p].last > IDLE_TIMEOUT
    requires forall p: nat :: p < |t.arena| ==> image(p) == t.arena[p].token
    ensures Selected(t.sessions, drop) == StaleIds(t, now)
    ensures Images(t.sessions, StaleIds(t, now), image) == TokensOf(t, StaleIds(t, now))
  {}

  /** What the loop leaves is the swept table, once the gauge follows a removal. */
  lemma DroppedIsSwept(t: Table, u: Table, now: int, removed: nat)
    requires u == Dropped(t, StaleIds(t, now)) && removed == |StaleIds(t, now)|
    ensures Swept(t, now) == if removed > 0 then Gauged(u) else u
  {
    if removed == 0 {
      assert StaleIds(t, now) == {};
      assert u == t;
    }
  }

  /** sendPacket fills a fresh buffer in place. */
  method BuildPacket(kind: byte, id: bytes, payload: bytes) returns (packet: array<byte>)
    requires |id| == ID_LEN
    ensures fresh(packet) && packet[..] == Framed(kind, id, payload)
    ensures packet.Length == 1 + 16 + |payload| && packet[0] == kind && packet[1..17] == id && packet[17..] == payload
  {
    packet := new byte[HEADER_LEN + |payload|](_ => 0);
    packet[0] := kind;
    for i := 0 to ID_LEN
      invariant packet[0] == kind && forall k :: 0 <= k < i ==> packet[1 + k] == id[k]
    {
      packet[1 + i] := id[i];
    }
    for i := 0 to |payload|
      invariant packet[0] == kind && forall k :: 0 <= k < ID_LEN ==> packet[1 + k] == id[k]
      invariant forall k :: 0 <= k < i ==> packet[HEADER_LEN + k] == payload[k]
    {
      packet[HEADER_LEN + i] := payload[i];
    }
  }
}
