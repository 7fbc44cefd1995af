/** The peer reconciler: client/internal/peer/manager.go over the peer table of
  client/internal/tunnel/wireguard.go.

  Endpoint selection and the outcome of every system call are an environment that may
  answer anything; endpoints are opaque strings, empty for none.  Methods run alone here;
  module ReconcilerRuns interleaves their critical sections. */
module Reconciler {
  import opened Wrappers

  datatype PeerInfo = PeerInfo(id: string, key: string, virtualIP: string)

  datatype Conn = Conn(key: string, endpoint: string)

  datatype Config = Config(endpoint: string, allowedIP: string)

  /** The manager's table by peer id, and the tunnel's by public key. */
  datatype Tables = Tables(peers: map<string, Conn>, tun: map<string, Config>)

  /** What one step meets: endpoint is the selected one (direct, LAN or relay), public and
    lan the fallbacks; the rest says which tunnel operations the system lets succeed.  A
    step tries no operation twice with the same arguments, and every step has an Env of
    its own, so any sequence of outcomes can occur. */
  datatype Env = Env(
    started: bool,
    endpoint: PeerInfo -> string,
    public: PeerInfo -> string,
    lan: PeerInfo -> string,
    addOk: (string, string) -> bool,
    updateOk: (string, string) -> bool,
    removeOk: string -> bool)

  // ---- The tunnel's operations ----

  function AllowedIP(virtualIP: string): string {
    if '/' in virtualIP then virtualIP else virtualIP + "/32"
  }

  predicate Adds(env: Env, key: string, endpoint: string, allowedIP: string) {
    env.started && key != "" && endpoint != "" && allowedIP != "" && env.addOk(key, endpoint)
  }

  predicate Removes(env: Env, tun: map<string, Config>, key: string) {
    env.started && key in tun && env.removeOk(key)
  }

  predicate Updates(env: Env, tun: map<string, Config>, key: string, endpoint: string) {
    env.started && key in tun && env.updateOk(key, endpoint)
  }

  // ---- The manager's operations ----

  /** The endpoints to try, in order, without blanks or repetitions. */
  function Candidates(env: Env, info: PeerInfo): seq<string> {
    var c0 := if env.endpoint(info) == "" then [] else [env.endpoint(info)];
    var c1 := if env.public(info) == "" || env.public(info) in c0 then c0 else c0 + [env.public(info)];
    if env.lan(info) == "" || env.lan(info) in c1 then c1 else c1 + [env.lan(info)]
  }

  function FirstAdded(env: Env, info: PeerInfo, endpoints: seq<string>): Option<string> {
    if endpoints == [] then None
    else if Adds(env, info.key, endpoints[0], AllowedIP(info.virtualIP)) then Some(endpoints[0])
    else FirstAdded(env, info, endpoints[1..])
  }

  /** The endpoint a connect ends up with, if it succeeds. */
  function ConnectEndpoint(env: Env, info: PeerInfo): Option<string> {
    if env.endpoint(info) == "" || info.virtualIP == "" then None
    else FirstAdded(env, info, Candidates(env, info))
  }

  function Connected(env: Env, t: Tables, info: PeerInfo): Tables {
    match ConnectEndpoint(env, info)
    case None => t
    case Some(ep) =>
      Tables(t.peers[info.id := Conn(info.key, ep)], t.tun[info.key := Config(ep, AllowedIP(info.virtualIP))])
  }

  /** The manager records a new endpoint whether or not the tunnel took it. */
  function Refreshed(env: Env, t: Tables, info: PeerInfo): Tables
    requires info.id in t.peers
  {
    var conn, ep := t.peers[info.id], env.endpoint(info);
    if ep == "" || ep == conn.endpoint then t
    else
      Tables(t.peers[info.id := conn.(endpoint := ep)],
             if Updates(env, t.tun, conn.key, ep) then t.tun[conn.key := t.tun[conn.key].(endpoint := ep)] else t.tun)
  }

  predicate Skipped(local: string, info: PeerInfo) {
    info.id == "" || info.id == local
  }

  function SyncedOne(env: Env, local: string, t: Tables, info: PeerInfo): Tables {
    if Skipped(local, info) then t
    else if info.id !in t.peers then Connected(env, t, info)
    else Refreshed(env, t, info)
  }

  /** The first loop; envs(i) is what the entry at position i meets. */
  function SyncedAll(envs: nat -> Env, local: string, t: Tables, infos: seq<PeerInfo>): Tables {
    if infos == [] then t
    else
      var n := |infos| - 1;
      SyncedOne(envs(n), local, SyncedAll(envs, local, t, infos[..n]), infos[n])
  }

  function Observed(local: string, infos: seq<PeerInfo>): set<string> {
    set info | info in infos && !Skipped(local, info) :: info.id
  }

  /** A tracked peer is forgotten even if the tunnel refuses to remove it. */
  function Disconnected(env: Env, t: Tables, id: string): Tables {
    if id !in t.peers then t
    else
      var key := t.peers[id].key;
      Tables(t.peers - {id}, if key != "" && Removes(env, t.tun, key) then t.tun - {key} else t.tun)
  }

  /** ForceRelay records the relay endpoint only once the tunnel has taken it. */
  function Forced(env: Env, t: Tables, id: string, relay: string): Tables {
    if id in t.peers && relay != "" && Updates(env, t.tun, t.peers[id].key, relay) then
      var conn := t.peers[id];
      Tables(t.peers[id := conn.(endpoint := relay)], t.tun[conn.key := t.tun[conn.key].(endpoint := relay)])
    else t
  }

  /** The second loop. */
  function DroppedAll(envs: nat -> Env, t: Tables, ids: seq<string>, observed: set<string>): Tables {
    if ids == [] then t
    else
      var n := |ids| - 1;
      var u := DroppedAll(envs, t, ids[..n], observed);
      if ids[n] in observed then u else Disconnected(envs(n), u, ids[n])
  }

  // ---- Invariants ----

  ghost predicate Injective(keyOf: string -> string) {
    forall a, b :: keyOf(a) == keyOf(b) ==> a == b
  }

  /** Every tracked peer is named, foreign, and present in the tunnel under its key. */
  ghost predicate Tracks(keyOf: string -> string, local: string, t: Tables) {
    forall id :: id in t.peers ==> id != "" && id != local && t.peers[id].key == keyOf(id) && keyOf(id) in t.tun
  }

  /** The two tables agree on a peer's endpoint. */
  ghost predicate InStepOn(t: Tables, id: string)
    requires id in t.peers
  {
    t.peers[id].key in t.tun && t.tun[t.peers[id].key].endpoint == t.peers[id].endpoint
  }

  ghost predicate InStep(t: Tables) {
    forall id :: id in t.peers ==> InStepOn(t, id)
  }

  ghost predicate Genuine(keyOf: string -> string, infos: seq<PeerInfo>) {
    forall info :: info in infos ==> info.key == keyOf(info.id)
  }

  lemma SyncOneTracks(env: Env, local: string, keyOf: string -> string, t: Tables, info: PeerInfo)
    requires Tracks(keyOf, local, t) && info.key == keyOf(info.id)
    ensures Tracks(keyOf, local, SyncedOne(env, local, t, info))
    ensures SyncedOne(env, local, t, info).peers.Keys <= t.peers.Keys + Observed(local, [info])
  {
    assert info in [info];
  }

  lemma DisconnectTracks(env: Env, local: string, keyOf: string -> string, t: Tables, id: string)
    requires Injective(keyOf) && Tracks(keyOf, local, t)
    ensures Tracks(keyOf, local, Disconnected(env, t, id))
    ensures Disconnected(env, t, id).peers == t.peers - {id}
  {}

  /** A peer is tracked afterwards if it was, or its connect succeeds. */
  lemma SyncOneConnects(env: Env, local: string, t: Tables, info: PeerInfo)
    ensures t.peers.Keys <= SyncedOne(env, local, t, info).peers.Keys
    ensures !Skipped(local, info) && ConnectEndpoint(env, info).Some? ==> info.id in SyncedOne(env, local, t, info).peers
  {}

  /** With a fixed injective key map, one step keeps the tables in step exactly when it
    is not an endpoint change that the tunnel refuses. */
  lemma SyncOneInStep(env: Env, local: string, keyOf: string -> string, t: Tables, info: PeerInfo)
    requires Injective(keyOf) && Tracks(keyOf, local, t) && InStep(t) && info.key == keyOf(info.id)
    ensures InStep(SyncedOne(env, local, t, info)) <==> !Refuses(env, local, t, info)
  {
    if Refuses(env, local, t, info) {
      assert info.id in SyncedOne(env, local, t, info).peers;
    }
  }

  /** The tunnel declines an endpoint that the manager is about to record. */
  ghost predicate Refuses(env: Env, local: string, t: Tables, info: PeerInfo) {
    && !Skipped(local, info) && info.id in t.peers
    && env.endpoint(info) != "" && env.endpoint(info) != t.peers[info.id].endpoint
    && !Updates(env, t.tun, t.peers[info.id].key, env.endpoint(info))
  }

  lemma DisconnectInStep(env: Env, local: string, keyOf: string -> string, t: Tables, id: string)
    requires Injective(keyOf) && Tracks(keyOf, local, t) && InStep(t)
    ensures InStep(Disconnected(env, t, id))
  {}

  /** No entry of the list is an endpoint change that the tunnel refuses. */
  ghost predicate NoRefusal(envs: nat -> Env, local: string, t: Tables, infos: seq<PeerInfo>) {
    forall i: nat :: i < |infos| ==> !Refuses(envs(i), local, SyncedAll(envs, local, t, infos[..i]), infos[i])
  }

  /** Every listed peer could be connected when its turn comes. */
  ghost predicate AllConnect(envs: nat -> Env, local: string, infos: seq<PeerInfo>) {
    forall i: nat :: i < |infos| && !Skipped(local, infos[i]) ==> ConnectEndpoint(envs(i), infos[i]).Some?
  }

  lemma ObservedExtends(local: string, infos: seq<PeerInfo>, i: nat)
    requires i < |infos|
    ensures Observed(local, infos[..i + 1])
         == Observed(local, infos[..i]) + (if Skipped(local, infos[i]) then {} else {infos[i].id})
  {}

  lemma {:induction false} SyncAllTracks(envs: nat -> Env, local: string, keyOf: string -> string, t: Tables, infos: seq<PeerInfo>)
    requires Tracks(keyOf, local, t) && Genuine(keyOf, infos)
    ensures Tracks(keyOf, local, SyncedAll(envs, local, t, infos))
    ensures AllConnect(envs, local, infos) ==> Observed(local, infos) <= SyncedAll(envs, local, t, infos).peers.Keys
    decreases |infos|
  {
    if infos != [] {
      var n := |infos| - 1;
      var u := SyncedAll(envs, local, t, infos[..n]);
      SyncAllTracks(envs, local, keyOf, t, infos[..n]);
      SyncOneTracks(envs(n), local, keyOf, u, infos[n]);
      SyncOneConnects(envs(n), local, u, infos[n]);
      ObservedExtends(local, infos, n);
      assert infos[..n + 1] == infos;
    }
  }

  lemma {:induction false} SyncAllInStep(envs: nat -> Env, local: string, keyOf: string -> string, t: Tables, infos: seq<PeerInfo>)
    requires Injective(keyOf) && Tracks(keyOf, local, t) && Genuine(keyOf, infos)
    requires InStep(t) && NoRefusal(envs, local, t, infos)
    ensures InStep(SyncedAll(envs, local, t, infos))
    decreases |infos|
  {
    if infos != [] {
      var n := |infos| - 1;
      forall i: nat | i < n
        ensures !Refuses(envs(i), local, SyncedAll(envs, local, t, infos[..n][..i]), infos[..n][i])
      {
        assert infos[..n][..i] == infos[..i];
      }
      SyncAllTracks(envs, local, keyOf, t, infos[..n]);
      SyncAllInStep(envs, local, keyOf, t, infos[..n]);
      SyncOneInStep(envs(n), local, keyOf, SyncedAll(envs, local, t, infos[..n]), infos[n]);
    }
  }

  lemma DropOneTracks(env: Env, local: string, keyOf: string -> string, t: Tables, id: string, observed: set<string>)
    requires Injective(keyOf) && Tracks(keyOf, local, t)
    ensures var u := if id in observed then t else Disconnected(env, t, id);
            && Tracks(keyOf, local, u) && (InStep(t) ==> InStep(u))
            && forall j :: j in u.peers <==> j in t.peers && (j == id ==> j in observed)
  {
    DisconnectTracks(env, local, keyOf, t, id);
    if InStep(t) {
      DisconnectInStep(env, local, keyOf, t, id);
    }
  }

  lemma {:induction false} DropAllTracks(envs: nat -> Env, local: string, keyOf: string -> string, t: Tables, ids: seq<string>, observed: set<string>)
    requires Injective(keyOf) && Tracks(keyOf, local, t)
    ensures Tracks(keyOf, local, DroppedAll(envs, t, ids, observed))
    ensures InStep(t) ==> InStep(DroppedAll(envs, t, ids, observed))
    ensures forall id :: id in DroppedAll(envs, t, ids, observed).peers <==> id in t.peers && (id in ids ==> id in observed)
    decreases |ids|
  {
    if ids != [] {
      var n := |ids| - 1;
      DropAllTracks(envs, local, keyOf, t, ids[..n], observed);
      DropOneTracks(envs(n), local, keyOf, DroppedAll(envs, t, ids[..n], observed), ids[n], observed);
      assert ids == ids[..n] + [ids[n]];
    }
  }

  // ---- What each operation does ----

  /** All other entries of both tables are as they were. */
  ghost predicate SameBut(t: Tables, u: Tables, id: string, key: string) {
    && (forall j :: j != id ==> (j in u.peers <==> j in t.peers) && (j in t.peers ==> u.peers[j] == t.peers[j]))
    && (forall k :: k != key ==> (k in u.tun <==> k in t.tun) && (k in t.tun ==> u.tun[k] == t.tun[k]))
  }

  /** The tunnel takes the peer at this endpoint. */
  ghost predicate Takes(env: Env, info: PeerInfo, endpoint: string) {
    env.started && info.key != "" && endpoint != "" && env.addOk(info.key, endpoint)
  }

  /** A connect ends up with the selected endpoint if the tunnel takes it, else the public one,
    else the LAN one; without a selected endpoint or a virtual address it fails. */
  lemma ConnectPrefers(env: Env, info: PeerInfo)
    ensures ConnectEndpoint(env, info) ==
              if env.endpoint(info) == "" || info.virtualIP == "" then None
              else if Takes(env, info, env.endpoint(info)) then Some(env.endpoint(info))
              else if Takes(env, info, env.public(info)) then Some(env.public(info))
              else if Takes(env, info, env.lan(info)) then Some(env.lan(info))
              else None
  {
    if info.virtualIP != "" {
      assert AllowedIP(info.virtualIP) != "";
      FirstOfThree(env, info, Candidates(env, info));
    }
  }

  lemma FirstOfThree(env: Env, info: PeerInfo, es: seq<string>)
    requires |es| <= 3
    ensures FirstAdded(env, info, es) ==
              if |es| > 0 && Adds(env, info.key, es[0], AllowedIP(info.virtualIP)) then Some(es[0])
              else if |es| > 1 && Adds(env, info.key, es[1], AllowedIP(info.virtualIP)) then Some(es[1])
              else if |es| > 2 && Adds(env, info.key, es[2], AllowedIP(info.virtualIP)) then Some(es[2])
              else None
  {
    if |es| > 0 {
      FirstOf(env, info, es);
      if |es| > 1 {
        FirstOf(env, info, es[1..]);
        if |es| > 2 {
          FirstOf(env, info, es[1..][1..]);
        }
      }
    }
  }

  lemma FirstOf(env: Env, info: PeerInfo, es: seq<string>)
    requires es != []
    ensures FirstAdded(env, info, es) ==
              if Adds(env, info.key, es[0], AllowedIP(info.virtualIP)) then Some(es[0]) else FirstAdded(env, info, es[1..])
  {}

  /** A successful connect records the peer and installs it for its own address alone, as a
    /32 unless it came with a prefix; a failed one changes nothing. */
  lemma ConnectInstalls(env: Env, t: Tables, info: PeerInfo)
    ensures var u, ep := Connected(env, t, info), ConnectEndpoint(env, info);
            && SameBut(t, u, info.id, info.key) && (ep.None? ==> u == t)
            && (ep.Some? ==>
                  && info.id in u.peers && u.peers[info.id] == Conn(info.key, ep.value)
                  && info.key in u.tun && u.tun[info.key].endpoint == ep.value
                  && ('/' in info.virtualIP ==> u.tun[info.key].allowedIP == info.virtualIP)
                  && ('/' !in info.virtualIP ==> u.tun[info.key].allowedIP == info.virtualIP + "/32"))
  {}

  /** A refresh records the selected endpoint, if there is one, and the tunnel has it
    afterwards if it took the change. */
  lemma RefreshMoves(env: Env, t: Tables, info: PeerInfo)
    requires info.id in t.peers
    ensures var u, ep, key := Refreshed(env, t, info), env.endpoint(info), t.peers[info.id].key;
            && SameBut(t, u, info.id, key) && info.id in u.peers && u.peers[info.id].key == key
            && u.peers[info.id].endpoint == (if ep == "" then t.peers[info.id].endpoint else ep)
            && (ep == "" || ep == t.peers[info.id].endpoint || !Updates(env, t.tun, key, ep) ==> u.tun == t.tun)
            && (ep != "" && ep != t.peers[info.id].endpoint && Updates(env, t.tun, key, ep) ==>
                  key in u.tun && u.tun[key].endpoint == ep && u.tun[key].allowedIP == t.tun[key].allowedIP)
  {}

  /** A disconnect forgets the peer, and the tunnel drops its key exactly if it lets it go. */
  lemma DisconnectDrops(env: Env, t: Tables, id: string)
    requires id in t.peers
    ensures var u, key := Disconnected(env, t, id), t.peers[id].key;
            && SameBut(t, u, id, key) && id !in u.peers
            && (key in u.tun <==> key in t.tun && (key == "" || !Removes(env, t.tun, key)))
            && (key in u.tun ==> u.tun[key] == t.tun[key])
  {}

  /** ForceRelay moves both tables to the relay, or neither. */
  lemma ForceMoves(env: Env, t: Tables, id: string, relay: string)
    requires id in t.peers
    ensures var u, key := Forced(env, t, id, relay), t.peers[id].key;
            if relay != "" && Updates(env, t.tun, key, relay) then
              && SameBut(t, u, id, key) && id in u.peers && u.peers[id] == Conn(key, relay)
              && key in u.tun && u.tun[key].endpoint == relay && u.tun[key].allowedIP == t.tun[key].allowedIP
            else u == t
  {}

  // ---- A round that nothing interrupts ----

  /** order is the one in which the second loop visits the tracked peers. */
  function Rounded(syncs: nat -> Env, drops: nat -> Env, local: string, t: Tables, infos: seq<PeerInfo>, order: seq<string>): Tables {
    DroppedAll(drops, SyncedAll(syncs, local, t, infos), order, Observed(local, infos))
  }

  /** The second loop visits what the first one left. */
  ghost predicate Visits(syncs: nat -> Env, local: string, t: Tables, infos: seq<PeerInfo>, order: seq<string>) {
    forall id :: id in order <==> id in SyncedAll(syncs, local, t, infos).peers
  }

  /** Whatever fails in it. */
  lemma RoundTracks(syncs: nat -> Env, drops: nat -> Env, local: string, keyOf: string -> string, t: Tables,
                    infos: seq<PeerInfo>, order: seq<string>)
    requires Injective(keyOf) && Tracks(keyOf, local, t) && Genuine(keyOf, infos) && Visits(syncs, local, t, infos, order)
    ensures var u := Rounded(syncs, drops, local, t, infos, order);
            && Tracks(keyOf, local, u)
            && u.peers.Keys <= Observed(local, infos)
            && (AllConnect(syncs, local, infos) ==> u.peers.Keys == Observed(local, infos))
            && (InStep(t) && NoRefusal(syncs, local, t, infos) ==> InStep(u))
  {
    SyncAllTracks(syncs, local, keyOf, t, infos);
    DropAllTracks(drops, local, keyOf, SyncedAll(syncs, local, t, infos), order, Observed(local, infos));
    if InStep(t) && NoRefusal(syncs, local, t, infos) {
      SyncAllInStep(syncs, local, keyOf, t, infos);
    }
  }

  // ---- A round in which everything succeeds ----

  /** The tunnel does what it is asked. */
  ghost predicate Obliging(env: Env) {
    env.started && (forall k, ep :: env.addOk(k, ep) && env.updateOk(k, ep)) && forall k :: env.removeOk(k)
  }

  /** Every listed peer has a key, an address and an endpoint, and is listed once. */
  ghost predicate Reachable(syncs: nat -> Env, local: string, infos: seq<PeerInfo>) {
    && (forall i: nat :: i < |infos| ==> infos[i].key != "" && infos[i].virtualIP != "" && syncs(i).endpoint(infos[i]) != "")
    && forall i, j :: 0 <= i < j < |infos| ==> infos[i].id != infos[j].id
  }

  /** Both tables have the peer at the endpoint selected for it. */
  ghost predicate At(t: Tables, info: PeerInfo, endpoint: string) {
    && info.id in t.peers && t.peers[info.id] == Conn(info.key, endpoint)
    && info.key in t.tun && t.tun[info.key].endpoint == endpoint
  }

  lemma SyncOneArrives(env: Env, local: string, keyOf: string -> string, t: Tables, info: PeerInfo)
    requires Tracks(keyOf, local, t) && InStep(t) && info.key == keyOf(info.id) && !Skipped(local, info)
    requires Obliging(env) && info.key != "" && info.virtualIP != "" && env.endpoint(info) != ""
    ensures At(SyncedOne(env, local, t, info), info, env.endpoint(info))
  {
    if info.id in t.peers {
      assert InStepOn(t, info.id);
      RefreshMoves(env, t, info);
    } else {
      ConnectPrefers(env, info);
      ConnectInstalls(env, t, info);
    }
  }

  lemma SyncOneKeepsOthers(env: Env, local: string, keyOf: string -> string, t: Tables, info: PeerInfo, other: PeerInfo, ep: string)
    requires Injective(keyOf) && Tracks(keyOf, local, t) && info.key == keyOf(info.id) && other.key == keyOf(other.id)
    requires info.id != other.id && At(t, other, ep)
    ensures At(SyncedOne(env, local, t, info), other, ep)
  {
    assert info.key != other.key;
    if info.id in t.peers {
      RefreshMoves(env, t, info);
    } else {
      ConnectInstalls(env, t, info);
    }
  }

  /** The first n entries have arrived. */
  ghost predicate Arrived(syncs: nat -> Env, local: string, t: Tables, infos: seq<PeerInfo>, n: nat)
    requires n <= |infos|
  {
    forall i: nat :: i < n && !Skipped(local, infos[i]) ==> At(t, infos[i], syncs(i).endpoint(infos[i]))
  }

  lemma NextArrives(syncs: nat -> Env, local: string, keyOf: string -> string, t: Tables, infos: seq<PeerInfo>, n: nat)
    requires Injective(keyOf) && Tracks(keyOf, local, t) && InStep(t) && Genuine(keyOf, infos) && n < |infos|
    requires Reachable(syncs, local, infos) && Obliging(syncs(n)) && Arrived(syncs, local, t, infos, n)
    ensures var u := SyncedOne(syncs(n), local, t, infos[n]);
            Tracks(keyOf, local, u) && InStep(u) && Arrived(syncs, local, u, infos, n + 1)
  {
    assert infos[n] in infos;
    SyncOneTracks(syncs(n), local, keyOf, t, infos[n]);
    SyncOneInStep(syncs(n), local, keyOf, t, infos[n]);
    forall i: nat | i < n + 1 && !Skipped(local, infos[i])
      ensures At(SyncedOne(syncs(n), local, t, infos[n]), infos[i], syncs(i).endpoint(infos[i]))
    {
      if i == n {
        SyncOneArrives(syncs(n), local, keyOf, t, infos[n]);
      } else {
        assert infos[i] in infos;
        SyncOneKeepsOthers(syncs(n), local, keyOf, t, infos[n], infos[i], syncs(i).endpoint(infos[i]));
      }
    }
  }

  lemma {:induction false} SyncAllArrives(syncs: nat -> Env, local: string, keyOf: string -> string, t: Tables, infos: seq<PeerInfo>, n: nat)
    requires Injective(keyOf) && Tracks(keyOf, local, t) && InStep(t) && Genuine(keyOf, infos) && n <= |infos|
    requires Reachable(syncs, local, infos) && forall k :: Obliging(syncs(k))
    ensures var u := SyncedAll(syncs, local, t, infos[..n]);
            Tracks(keyOf, local, u) && InStep(u) && Arrived(syncs, local, u, infos, n)
    decreases n
  {
    if n > 0 {
      SyncAllArrives(syncs, local, keyOf, t, infos, n - 1);
      assert Obliging(syncs(n - 1)) && infos[..n][..n - 1] == infos[..n - 1];
      NextArrives(syncs, local, keyOf, SyncedAll(syncs, local, t, infos[..n - 1]), infos, n - 1);
    }
  }

  lemma DropOneClears(env: Env, local: string, keyOf: string -> string, t: Tables, id: string)
    requires Injective(keyOf) && Tracks(keyOf, local, t) && Obliging(env) && keyOf(id) != "" && id in t.peers
    ensures keyOf(id) !in Disconnected(env, t, id).tun
    ensures forall j :: j != id ==> (keyOf(j) in Disconnected(env, t, id).tun <==> keyOf(j) in t.tun)
    ensures forall j :: j != id && keyOf(j) in t.tun ==> Disconnected(env, t, id).tun[keyOf(j)] == t.tun[keyOf(j)]
  {
    DisconnectDrops(env, t, id);
  }

  /** What the second loop leaves of a peer that it visits and was not observed, and of one that
    was. */
  lemma {:induction false} DropAllClears(drops: nat -> Env, local: string, keyOf: string -> string, t: Tables, ids: seq<string>, observed: set<string>)
    requires Injective(keyOf) && Tracks(keyOf, local, t) && (forall n :: Obliging(drops(n))) && forall id :: keyOf(id) != ""
    ensures var u := DroppedAll(drops, t, ids, observed);
            && (forall id :: id in ids && id in t.peers && id !in observed ==> id !in u.peers && keyOf(id) !in u.tun)
            && (forall id :: id in observed ==> (keyOf(id) in u.tun <==> keyOf(id) in t.tun))
            && (forall id :: id in observed && keyOf(id) in t.tun ==> u.tun[keyOf(id)] == t.tun[keyOf(id)])
            && (forall id :: id in observed ==> (id in u.peers <==> id in t.peers))
            && (forall id :: id in observed && id in t.peers ==> u.peers[id] == t.peers[id])
    decreases |ids|
  {
    if ids != [] {
      var n := |ids| - 1;
      var u := DroppedAll(drops, t, ids[..n], observed);
      DropAllClears(drops, local, keyOf, t, ids[..n], observed);
      DropAllTracks(drops, local, keyOf, t, ids[..n], observed);
      assert Obliging(drops(n)) && ids == ids[..n] + [ids[n]];
      if ids[n] !in observed && ids[n] in u.peers {
        DropOneClears(drops(n), local, keyOf, u, ids[n]);
      }
    }
  }

  /** One obliging round brings both tables to the list: exactly the listed peers are tracked,
    each at the endpoint selected for it in both tables, and of every other peer that was
    tracked before the tunnel has nothing left. */
  lemma RoundConverges(syncs: nat -> Env, drops: nat -> Env, local: string, keyOf: string -> string, t: Tables,
                       infos: seq<PeerInfo>, order: seq<string>)
    requires Injective(keyOf) && (forall id :: keyOf(id) != "") && Tracks(keyOf, local, t) && InStep(t) && Genuine(keyOf, infos)
    requires Visits(syncs, local, t, infos, order) && Reachable(syncs, local, infos)
    requires (forall n :: Obliging(syncs(n))) && forall n :: Obliging(drops(n))
    ensures var u := Rounded(syncs, drops, local, t, infos, order);
            && u.peers.Keys == Observed(local, infos)
            && (forall i: nat :: i < |infos| && !Skipped(local, infos[i]) ==> At(u, infos[i], syncs(i).endpoint(infos[i])))
            && forall id :: id in t.peers && id !in Observed(local, infos) ==> keyOf(id) !in u.tun
  {
    var mid, seen := SyncedAll(syncs, local, t, infos), Observed(local, infos);
    SyncAllArrives(syncs, local, keyOf, t, infos, |infos|);
    assert infos[..|infos|] == infos;
    DropAllClears(drops, local, keyOf, mid, order, seen);
    DropAllTracks(drops, local, keyOf, mid, order, seen);
    var u := Rounded(syncs, drops, local, t, infos, order);
    forall i: nat | i < |infos| && !Skipped(local, infos[i])
      ensures infos[i].id in u.peers && At(u, infos[i], syncs(i).endpoint(infos[i]))
    {
      assert infos[i] in infos && infos[i].id in seen;
      assert At(mid, infos[i], syncs(i).endpoint(infos[i]));
    }
    SyncAllKeeps(syncs, local, t, infos);
  }

  lemma {:induction false} SyncAllKeeps(syncs: nat -> Env, local: string, t: Tables, infos: seq<PeerInfo>)
    ensures t.peers.Keys <= SyncedAll(syncs, local, t, infos).peers.Keys
    decreases |infos|
  {
    if infos != [] {
      var n := |infos| - 1;
      SyncAllKeeps(syncs, local, t, infos[..n]);
      SyncOneConnects(syncs(n), local, SyncedAll(syncs, local, t, infos[..n]), infos[n]);
    }
  }

  // ---- The objects ----

  class WGTunnel {
    var peers: map<string, Config>

    method AddPeer(env: Env, key: string, endpoint: string, allowedIP: string) returns (ok: bool)
      modifies this
      ensures ok == Adds(env, key, endpoint, allowedIP)
      ensures peers == if ok then old(peers)[key := Config(endpoint, allowedIP)] else old(peers)
    {
      if !env.started || key == "" || endpoint == "" || allowedIP == "" || !env.addOk(key, endpoint) {
        return false;
      }
      peers := peers[key := Config(endpoint, allowedIP)];
      return true;
    }

    method RemovePeer(env: Env, key: string) returns (ok: bool)
      modifies this
      ensures ok == Removes(env, old(peers), key)
      ensures peers == if ok then old(peers) - {key} else old(peers)
    {
      if !env.started || key !in peers || !env.removeOk(key) {
        return false;
      }
      peers := peers - {key};
      return true;
    }

    method UpdatePeerEndpoint(env: Env, key: string, endpoint: string) returns (ok: bool)
      modifies this
      ensures ok == Updates(env, old(peers), key, endpoint)
      ensures peers == if ok then old(peers)[key := old(peers)[key].(endpoint := endpoint)] else old(peers)
    {
      if !env.started || key !in peers || !env.updateOk(key, endpoint) {
        return false;
      }
      peers := peers[key := peers[key].(endpoint := endpoint)];
      return true;
    }
  }

  class PeerManager {
    const tunnel: WGTunnel
    const localPeerID: string
    var peers: map<string, Conn>

    ghost function View(): Tables
      reads this, tunnel
    {
      Tables(peers, tunnel.peers)
    }

    constructor (tunnel: WGTunnel, localPeerID: string)
      ensures this.tunnel == tunnel && this.localPeerID == localPeerID && peers == map[]
    {
      this.tunnel, this.localPeerID, peers := tunnel, localPeerID, map[];
    }

    /** Tries the candidates in turn until the tunnel accepts one. */
    method AddPeerWithFallback(env: Env, info: PeerInfo) returns (endpoint: Option<string>)
      modifies tunnel
      ensures endpoint == FirstAdded(env, info, Candidates(env, info))
      ensures tunnel.peers == if endpoint.Some?
                              then old(tunnel.peers)[info.key := Config(endpoint.value, AllowedIP(info.virtualIP))]
                              else old(tunnel.peers)
    {
      var candidates := Candidates(env, info);
      for i := 0 to |candidates|
        invariant tunnel.peers == old(tunnel.peers)
        invariant FirstAdded(env, info, candidates) == FirstAdded(env, info, candidates[i..])
      {
        var ok := tunnel.AddPeer(env, info.key, candidates[i], AllowedIP(info.virtualIP));
        if ok {
          return Some(candidates[i]);
        }
        assert candidates[i..][1..] == candidates[i + 1..];
      }
      return None;
    }

    method ConnectToPeer(env: Env, info: PeerInfo)
      modifies this, tunnel
      ensures View() == Connected(env, old(View()), info)
    {
      if env.endpoint(info) == "" || info.virtualIP == "" {
        return;
      }
      var endpoint := AddPeerWithFallback(env, info);
      if endpoint.Some? {
        peers := peers[info.id := Conn(info.key, endpoint.value)];
      }
    }

    method DisconnectPeer(env: Env, id: string)
      modifies this, tunnel
      ensures View() == Disconnected(env, old(View()), id)
    {
      if id !in peers {
        return;
      }
      if peers[id].key != "" {
        var _ := tunnel.RemovePeer(env, peers[id].key);
      }
      peers := peers - {id};
    }

    method ForceRelay(env: Env, id: string, relay: string) returns (ok: bool)
      modifies this, tunnel
      ensures View() == Forced(env, old(View()), id, relay)
      ensures ok <==> id in old(peers) && relay != "" && Updates(env, old(tunnel.peers), old(peers)[id].key, relay)
    {
      if id !in peers || relay == "" {
        return false;
      }
      ok := tunnel.UpdatePeerEndpoint(env, peers[id].key, relay);
      if ok {
        peers := peers[id := peers[id].(endpoint := relay)];
      }
    }

    method SyncOne(env: Env, info: PeerInfo)
      modifies this, tunnel
      ensures View() == SyncedOne(env, localPeerID, old(View()), info)
    {
      if info.id == "" || info.id == localPeerID {
        return;
      }
      if info.id !in peers {
        ConnectToPeer(env, info);
        return;
      }
      var conn, endpoint := peers[info.id], env.endpoint(info);
      if endpoint != "" && endpoint != conn.endpoint {
        var _ := tunnel.UpdatePeerEndpoint(env, conn.key, endpoint);
        peers := peers[info.id := conn.(endpoint := endpoint)];
      }
    }

    /** The first loop: connect or refresh every listed peer. */
    method SyncListed(envs: nat -> Env, infos: seq<PeerInfo>) returns (observed: set<string>)
      modifies this, tunnel
      ensures View() == SyncedAll(envs, localPeerID, old(View()), infos)
      ensures observed == Observed(localPeerID, infos)
    {
      observed := {};
      for i := 0 to |infos|
        invariant View() == SyncedAll(envs, localPeerID, old(View()), infos[..i])
        invariant observed == Observed(localPeerID, infos[..i])
      {
        ObservedExtends(localPeerID, infos, i);
        assert infos[..i + 1][..i] == infos[..i];
        SyncOne(envs(i), infos[i]);
        if !Skipped(localPeerID, infos[i]) {
          observed := observed + {infos[i].id};
        }
      }
      assert infos[..|infos|] == infos;
    }

    /** The second loop: forget every tracked peer that was not observed. */
    method DropUnobserved(envs: nat -> Env, existing: seq<string>, observed: set<string>)
      modifies this, tunnel
      ensures View() == DroppedAll(envs, old(View()), existing, observed)
    {
      for i := 0 to |existing|
        invariant View() == DroppedAll(envs, old(View()), existing[..i], observed)
      {
        assert existing[..i + 1][..i] == existing[..i];
        if existing[i] !in observed {
          DisconnectPeer(envs(i), existing[i]);
        }
      }
      assert existing[..|existing|] == existing;
    }

    method TrackedIDs() returns (ids: seq<string>)
      ensures forall id :: id in ids <==> id in peers
    {
      ids := [];
      var todo := peers.Keys;
      while todo != {}
        invariant todo <= peers.Keys && forall id :: id in ids <==> id in peers && id !in todo
        decreases |todo|
      {
        var id :| id in todo;
        ids := ids + [id];
        todo := todo - {id};
      }
    }

    /** One round of reconciliation with no ForceRelay beside it; fetched is None when the request failed.  Whatever
      the tunnel refuses, tracked peers come from the list and stay in the tunnel; if
      every connect succeeds, the tracked peers are the listed ones; and if the tunnel
      takes every new endpoint, the two tables keep agreeing. */
    method SyncPeersOnce(syncs: nat -> Env, drops: nat -> Env, fetched: Option<seq<PeerInfo>>, ghost keyOf: string -> string)
        returns (ghost order: seq<string>)
      modifies this, tunnel
      ensures fetched.None? ==> View() == old(View())
      ensures fetched.Some? ==>
                && Visits(syncs, localPeerID, old(View()), fetched.value, order)
                && View() == Rounded(syncs, drops, localPeerID, old(View()), fetched.value, order)
      ensures Injective(keyOf) && old(Tracks(keyOf, localPeerID, View())) && (fetched.Some? ==> Genuine(keyOf, fetched.value)) ==>
                && Tracks(keyOf, localPeerID, View())
                && (fetched.Some? ==> peers.Keys <= Observed(localPeerID, fetched.value))
                && (fetched.Some? && AllConnect(syncs, localPeerID, fetched.value) ==>
                      peers.Keys == Observed(localPeerID, fetched.value))
                && (fetched.Some? && old(InStep(View()) && NoRefusal(syncs, localPeerID, View(), fetched.value)) ==> InStep(View()))
    {
      order := [];
      if fetched.None? {
        return;
      }
      ghost var before := View();
      var observed := SyncListed(syncs, fetched.value);
      var existing := TrackedIDs();
      DropUnobserved(drops, existing, observed);
      order := existing;
      if Injective(keyOf) && Tracks(keyOf, localPeerID, before) && Genuine(keyOf, fetched.value) {
        RoundTracks(syncs, drops, localPeerID, keyOf, before, fetched.value, order);
      }
    }
  }

  // ---- What goes wrong otherwise ----

  ghost predicate Drifted(t: Tables, id: string) {
    && id in t.peers && t.peers[id].key in t.tun
    && t.tun[t.peers[id].key].endpoint != t.peers[id].endpoint
  }

  /** After a refused endpoint change the two tables disagree, ... */
  lemma RefusalDrifts(env: Env, local: string, keyOf: string -> string, t: Tables, info: PeerInfo)
    requires Tracks(keyOf, local, t) && InStep(t) && Refuses(env, local, t, info)
    ensures Drifted(SyncedOne(env, local, t, info), info.id)
  {}

  lemma {:induction false} DriftStays(envs: seq<Env>, local: string, t: Tables, info: PeerInfo)
    requires Drifted(t, info.id) && !Skipped(local, info)
    requires forall env :: env in envs ==> env.endpoint(info) == t.peers[info.id].endpoint
    ensures Repeated(envs, local, t, info) == t
    decreases |envs|
  {
    if envs != [] {
      assert envs[0] in envs;
      DriftStays(envs[1..], local, t, info);
    }
  }

  /** ... and however often the same endpoint is offered again, even by a tunnel that
    would now take it, the update is not retried. */
  lemma DriftIsNotRepaired(env: Env, later: seq<Env>, local: string, keyOf: string -> string, t: Tables, info: PeerInfo)
    requires Tracks(keyOf, local, t) && InStep(t) && Refuses(env, local, t, info)
    requires forall e :: e in later ==> e.endpoint(info) == env.endpoint(info)
    ensures Drifted(Repeated([env] + later, local, t, info), info.id)
  {
    RefusalDrifts(env, local, keyOf, t, info);
    DriftStays(later, local, SyncedOne(env, local, t, info), info);
    assert ([env] + later)[1..] == later;
  }

  function Repeated(envs: seq<Env>, local: string, t: Tables, info: PeerInfo): Tables
    decreases |envs|
  {
    if envs == [] then t else Repeated(envs[1..], local, SyncedOne(envs[0], local, t, info), info)
  }

  /** Two tracked ids with one key: dropping either takes the other's tunnel peer away, so
    the key map has to be injective. */
  lemma SharedKeyLosesPeer(env: Env, t: Tables, a: string, b: string)
    requires a != b && a in t.peers && b in t.peers && t.peers[a].key == t.peers[b].key
    requires t.peers[a].key != "" && Removes(env, t.tun, t.peers[a].key)
    ensures var u := Disconnected(env, t, a); b in u.peers && u.peers[b].key !in u.tun
  {}
}
