/** The reconciler at the granularity of its locks.

  Two goroutines work on the manager's table and the tunnel's: the sync loop, and the
  quality monitor with ForceRelay and AttemptDirect.  Each locks a table for one look or
  one change at a time, so between telling the tunnel and recording what was told, the
  other may do anything. */
module ReconcilerRuns {
  import opened Wrappers
  import opened Reconciler

  /** What a goroutine is in the middle of: about to call the tunnel (Connecting, Updating,
    Removing), or to record what it called it for (Added, Updated, Removed). */
  datatype Stage =
    | Idle
    | Connecting(info: PeerInfo, candidates: seq<string>)
    | Added(info: PeerInfo, endpoint: string)
    | Updating(id: string, key: string, endpoint: string)
    | Updated(id: string, key: string, endpoint: string)
    | Removing(id: string, key: string)
    | Removed(id: string)

  /** The entries or peers that the sync loop has yet to look at. */
  datatype Round = Resting | Listing(infos: seq<PeerInfo>) | Dropping(ids: seq<string>)

  /** latest holds the peers of the latest list that arrived. */
  datatype World = World(t: Tables, sync: Stage, monitor: Stage, round: Round, latest: set<string>)

  datatype Goroutine = Syncer | Monitor

  /** Probe is the look-up of ForceRelay or AttemptDirect, with the endpoint it settles on. */
  datatype Step =
    | Fetch(infos: seq<PeerInfo>)
    | Look(env: Env)
    | Snapshot(order: seq<string>)
    | Drop
    | Finish
    | Probe(id: string, endpoint: string)
    | CallTunnel(g: Goroutine, env: Env)
    | Record(g: Goroutine)

  // ---- Critical sections ----

  /** What a listed peer needs.  Whether a peer is tracked only the sync loop changes, so its
    look-up and the later comparison of endpoints are one look at the time of the latter. */
  function Wanted(env: Env, local: string, t: Tables, info: PeerInfo): Stage {
    if Skipped(local, info) || env.endpoint(info) == "" then Idle
    else if info.id !in t.peers then
      if info.virtualIP == "" then Idle else Connecting(info, Candidates(env, info))
    else if env.endpoint(info) == t.peers[info.id].endpoint then Idle
    else Updating(info.id, t.peers[info.id].key, env.endpoint(info))
  }

  function Unwanted(t: Tables, latest: set<string>, id: string): Stage {
    if id in latest || id !in t.peers then Idle else Removing(id, t.peers[id].key)
  }

  /** A call to the tunnel.  The sync loop goes on to record an update whether or not it was
    taken, the monitor only if it was; of several adds only the last one succeeds. */
  function Called(g: Goroutine, env: Env, t: Tables, s: Stage): (Tables, Stage) {
    match s
    case Connecting(info, candidates) =>
      (match FirstAdded(env, info, candidates)
       case None => (t, Idle)
       case Some(ep) => (t.(tun := t.tun[info.key := Config(ep, AllowedIP(info.virtualIP))]), Added(info, ep)))
    case Updating(id, key, ep) =>
      if Updates(env, t.tun, key, ep) then
        (t.(tun := t.tun[key := t.tun[key].(endpoint := ep)]), Updated(id, key, ep))
      else (t, if g.Syncer? then Updated(id, key, ep) else Idle)
    case Removing(id, key) =>
      (if key != "" && Removes(env, t.tun, key) then t.(tun := t.tun - {key}) else t, Removed(id))
    case _ => (t, s)
  }

  function Recorded(t: Tables, s: Stage): Tables {
    match s
    case Added(info, ep) => t.(peers := t.peers[info.id := Conn(info.key, ep)])
    case Updated(id, _, ep) => if id in t.peers then t.(peers := t.peers[id := t.peers[id].(endpoint := ep)]) else t
    case Removed(id) => t.(peers := t.peers - {id})
    case _ => t
  }

  predicate Calling(s: Stage) {
    s.Connecting? || s.Updating? || s.Removing?
  }

  predicate Recording(s: Stage) {
    s.Added? || s.Updated? || s.Removed?
  }

  function StageOf(w: World, g: Goroutine): Stage {
    if g.Syncer? then w.sync else w.monitor
  }

  function WithStage(w: World, g: Goroutine, t: Tables, s: Stage): World {
    if g.Syncer? then w.(t := t, sync := s) else w.(t := t, monitor := s)
  }

  ghost predicate Enabled(keyOf: string -> string, w: World, step: Step) {
    match step
    case Fetch(infos) => w.round.Resting? && w.sync.Idle? && Genuine(keyOf, infos)
    case Look(_) => w.round.Listing? && w.round.infos != [] && w.sync.Idle?
    case Snapshot(order) => w.round == Listing([]) && w.sync.Idle? && forall id :: id in order <==> id in w.t.peers
    case Drop => w.round.Dropping? && w.round.ids != [] && w.sync.Idle?
    case Finish => w.round == Dropping([]) && w.sync.Idle?
    case Probe(id, ep) => w.monitor.Idle? && id in w.t.peers && ep != ""
    case CallTunnel(g, _) => Calling(StageOf(w, g))
    case Record(g) => Recording(StageOf(w, g))
  }

  function Next(local: string, w: World, step: Step): World {
    match step
    case Fetch(infos) => w.(round := Listing(infos), latest := Observed(local, infos))
    case Look(env) =>
      if w.round.Listing? && w.round.infos != [] then
        w.(round := Listing(w.round.infos[1..]), sync := Wanted(env, local, w.t, w.round.infos[0])) else w
    case Snapshot(order) => w.(round := Dropping(order))
    case Drop =>
      if w.round.Dropping? && w.round.ids != [] then
        w.(round := Dropping(w.round.ids[1..]), sync := Unwanted(w.t, w.latest, w.round.ids[0])) else w
    case Finish => w.(round := Resting)
    case Probe(id, ep) => if id in w.t.peers then w.(monitor := Updating(id, w.t.peers[id].key, ep)) else w
    case CallTunnel(g, env) =>
      var (t, s) := Called(g, env, w.t, StageOf(w, g));
      WithStage(w, g, t, s)
    case Record(g) => WithStage(w, g, Recorded(w.t, StageOf(w, g)), Idle)
  }

  ghost predicate Steps(keyOf: string -> string, local: string, worlds: seq<World>, steps: seq<Step>, i: nat)
    requires i < |steps| < |worlds|
  {
    Enabled(keyOf, worlds[i], steps[i]) && worlds[i + 1] == Next(local, worlds[i], steps[i])
  }

  /** Any interleaving, from a manager that tracks nobody; the tunnel may hold anything. */
  ghost predicate Run(keyOf: string -> string, local: string, worlds: seq<World>, steps: seq<Step>) {
    && |worlds| == |steps| + 1
    && (exists tun :: worlds[0] == World(Tables(map[], tun), Idle, Idle, Resting, {}))
    && forall i :: 0 <= i < |steps| ==> Steps(keyOf, local, worlds, steps, i)
  }

  // ---- Without interruption, the steps are the manager's methods ----

  lemma EntryIsSyncedOne(env: Env, local: string, t: Tables, info: PeerInfo)
    ensures var (u, s) := Called(Syncer, env, t, Wanted(env, local, t, info));
            Recorded(u, s) == SyncedOne(env, local, t, info)
  {}

  lemma ProbeIsForced(env: Env, t: Tables, id: string, relay: string)
    requires id in t.peers && relay != ""
    ensures var (u, s) := Called(Monitor, env, t, Updating(id, t.peers[id].key, relay));
            Recorded(u, s) == Forced(env, t, id, relay)
  {}

  lemma DropIsDisconnected(env: Env, t: Tables, latest: set<string>, id: string)
    ensures var (u, s) := Called(Syncer, env, t, Unwanted(t, latest, id));
            Recorded(u, s) == if id in latest then t else Disconnected(env, t, id)
  {}

  // ---- What every interleaving keeps ----

  ghost predicate Foreign(local: string, id: string) {
    id != "" && id != local
  }

  /** Tracked peers are named, foreign, and in the tunnel under their key, except for one
    that is just being dropped. */
  ghost predicate TracksBut(keyOf: string -> string, local: string, w: World) {
    forall id :: id in w.t.peers ==>
      Foreign(local, id) && w.t.peers[id].key == keyOf(id) && (keyOf(id) in w.t.tun || w.sync == Removed(id))
  }

  ghost predicate SyncOk(keyOf: string -> string, local: string, w: World) {
    match w.sync
    case Idle => true
    case Connecting(info, _) => Foreign(local, info.id) && info.key == keyOf(info.id) && info.id !in w.t.peers
    case Added(info, _) =>
      Foreign(local, info.id) && info.key == keyOf(info.id) && info.id !in w.t.peers && info.key in w.t.tun
    case Updating(id, key, _) => id in w.t.peers && key == keyOf(id)
    case Updated(id, key, _) => id in w.t.peers && key == keyOf(id)
    case Removing(id, key) => id in w.t.peers && key == keyOf(id)
    case Removed(id) => id in w.t.peers
  }

  ghost predicate MonitorOk(keyOf: string -> string, w: World) {
    w.monitor.Idle? || ((w.monitor.Updating? || w.monitor.Updated?) && w.monitor.key == keyOf(w.monitor.id))
  }

  ghost predicate BeingDropped(w: World, id: string) {
    (w.sync.Removing? || w.sync.Removed?) && w.sync.id == id
  }

  /** Where the sync loop is, and which peers may be tracked there. */
  ghost predicate RoundOk(keyOf: string -> string, w: World) {
    match w.round
    case Resting => w.sync.Idle? && w.t.peers.Keys <= w.latest
    case Listing(infos) => Genuine(keyOf, infos) && !w.sync.Removing? && !w.sync.Removed?
    case Dropping(ids) =>
      && (w.sync.Idle? || w.sync.Removing? || w.sync.Removed?)
      && forall id :: id in w.t.peers ==> id in w.latest || id in ids || BeingDropped(w, id)
  }

  ghost predicate Sound(keyOf: string -> string, local: string, w: World) {
    TracksBut(keyOf, local, w) && SyncOk(keyOf, local, w) && MonitorOk(keyOf, w) && RoundOk(keyOf, w)
  }

  lemma LookIsSound(keyOf: string -> string, local: string, w: World, env: Env)
    requires Sound(keyOf, local, w) && Enabled(keyOf, w, Look(env))
    ensures Sound(keyOf, local, Next(local, w, Look(env)))
  {
    assert w.round.infos[0] in w.round.infos;
  }

  lemma DropIsSound(keyOf: string -> string, local: string, w: World)
    requires Sound(keyOf, local, w) && Enabled(keyOf, w, Drop)
    ensures Sound(keyOf, local, Next(local, w, Drop))
  {
    assert w.round.ids == [w.round.ids[0]] + w.round.ids[1..];
  }

  lemma CallIsSound(keyOf: string -> string, local: string, w: World, g: Goroutine, env: Env)
    requires Injective(keyOf) && Sound(keyOf, local, w) && Calling(StageOf(w, g))
    ensures Sound(keyOf, local, Next(local, w, CallTunnel(g, env)))
  {}

  lemma RecordIsSound(keyOf: string -> string, local: string, w: World, g: Goroutine)
    requires Sound(keyOf, local, w) && Recording(StageOf(w, g))
    ensures Sound(keyOf, local, Next(local, w, Record(g)))
  {}

  lemma NextIsSound(keyOf: string -> string, local: string, w: World, step: Step)
    requires Injective(keyOf) && Sound(keyOf, local, w) && Enabled(keyOf, w, step)
    ensures Sound(keyOf, local, Next(local, w, step))
  {
    match step
    case Look(env) => LookIsSound(keyOf, local, w, env);
    case Drop => DropIsSound(keyOf, local, w);
    case CallTunnel(g, env) => CallIsSound(keyOf, local, w, g, env);
    case Record(g) => RecordIsSound(keyOf, local, w, g);
    case _ =>
  }

  /** At every point of every interleaving: the local peer is not tracked, each tracked peer's
    key is in the tunnel unless that peer is just being dropped, and between two rounds all
    tracked peers are in the latest list. */
  lemma {:induction false} RunsTrack(keyOf: string -> string, local: string, worlds: seq<World>, steps: seq<Step>, n: nat)
    requires Injective(keyOf) && Run(keyOf, local, worlds, steps) && n < |worlds|
    ensures Sound(keyOf, local, worlds[n])
    ensures worlds[n].sync.Idle? ==> Tracks(keyOf, local, worlds[n].t)
    ensures worlds[n].round.Resting? ==> worlds[n].t.peers.Keys <= worlds[n].latest
  {
    if n > 0 {
      RunsTrack(keyOf, local, worlds, steps, n - 1);
      assert Steps(keyOf, local, worlds, steps, n - 1);
      NextIsSound(keyOf, local, worlds[n - 1], steps[n - 1]);
    }
  }

  // ---- Exactly when the two tables stay in step ----

  /** The goroutine has told the tunnel about the peer, and not recorded it yet. */
  ghost predicate Pending(s: Stage, id: string) {
    (s.Updated? && s.id == id) || (s.Added? && s.info.id == id)
  }

  /** The peer is tracked, or about to be, and is not on its way out. */
  ghost predicate Exposed(w: World, id: string) {
    (id in w.t.peers && w.sync != Removed(id)) || (w.sync.Added? && w.sync.info.id == id)
  }

  /** The tunnel holds what is recorded, or what somebody is about to record. */
  ghost predicate Settled(keyOf: string -> string, w: World, id: string) {
    && keyOf(id) in w.t.tun
    && var ep := w.t.tun[keyOf(id)].endpoint;
       if Pending(w.sync, id) || Pending(w.monitor, id) then
         (Pending(w.sync, id) && w.sync.endpoint == ep) || (Pending(w.monitor, id) && w.monitor.endpoint == ep)
       else id in w.t.peers && w.t.peers[id].endpoint == ep
  }

  ghost predicate Agreed(keyOf: string -> string, w: World) {
    forall id :: Exposed(w, id) ==> Settled(keyOf, w, id)
  }

  /** The tunnel has another endpoint for the peer than the goroutine will record. */
  ghost predicate Outdated(keyOf: string -> string, w: World, s: Stage, id: string) {
    Pending(s, id) && (keyOf(id) in w.t.tun ==> w.t.tun[keyOf(id)].endpoint != s.endpoint)
  }

  /** The two ways to come apart: the tunnel refuses a refresh that changes something and
    that nobody else is about to record over; or a goroutine records a peer while the
    other, overtaken in the tunnel, has yet to record it. */
  ghost predicate Disturbs(keyOf: string -> string, w: World, step: Step) {
    match step
    case CallTunnel(g, env) =>
      && g.Syncer? && w.sync.Updating? && !Updates(env, w.t.tun, w.sync.key, w.sync.endpoint)
      && !Pending(w.monitor, w.sync.id)
      && (w.sync.key in w.t.tun ==> w.t.tun[w.sync.key].endpoint != w.sync.endpoint)
    case Record(g) =>
      var mine, other := StageOf(w, g), StageOf(w, if g.Syncer? then Monitor else Syncer);
      if mine.Updated? then Outdated(keyOf, w, other, mine.id)
      else mine.Added? && Outdated(keyOf, w, other, mine.info.id)
    case _ => false
  }

  ghost predicate SamePending(s: Stage, t: Stage, id: string) {
    (Pending(s, id) <==> Pending(t, id)) && (Pending(s, id) ==> s.endpoint == t.endpoint && s.Added? == t.Added?)
  }

  /** Nothing about the peer differs. */
  ghost predicate Alike(keyOf: string -> string, w: World, v: World, id: string) {
    && (id in v.t.peers <==> id in w.t.peers) && (id in w.t.peers ==> v.t.peers[id] == w.t.peers[id])
    && (keyOf(id) in v.t.tun <==> keyOf(id) in w.t.tun)
    && (keyOf(id) in w.t.tun ==> v.t.tun[keyOf(id)] == w.t.tun[keyOf(id)])
    && (v.sync == Removed(id) <==> w.sync == Removed(id))
    && SamePending(w.sync, v.sync, id) && SamePending(w.monitor, v.monitor, id)
  }

  /** A step that leaves all but one peer alone keeps agreement exactly if it does for that
    one. */
  lemma OneAtATime(keyOf: string -> string, w: World, v: World, x: string)
    requires Agreed(keyOf, w) && forall id :: id != x ==> Alike(keyOf, w, v, id)
    ensures Agreed(keyOf, v) <==> (Exposed(v, x) ==> Settled(keyOf, v, x))
  {
    forall id | id != x && Exposed(v, id)
      ensures Settled(keyOf, v, id)
    {
      assert Alike(keyOf, w, v, id);
      assert Exposed(w, id) && Settled(keyOf, w, id);
    }
  }

  /** The peer that a goroutine is busy with. */
  function Subject(s: Stage): string
    requires !s.Idle?
  {
    if s.Connecting? || s.Added? then s.info.id else s.id
  }

  lemma CallLeavesOthers(keyOf: string -> string, local: string, w: World, g: Goroutine, env: Env, id: string)
    requires Injective(keyOf) && Sound(keyOf, local, w) && Calling(StageOf(w, g)) && id != Subject(StageOf(w, g))
    ensures Alike(keyOf, w, Next(local, w, CallTunnel(g, env)), id)
  {
    assert keyOf(id) != keyOf(Subject(StageOf(w, g)));
  }

  lemma SyncCallAt(keyOf: string -> string, local: string, w: World, env: Env)
    requires Sound(keyOf, local, w) && Calling(w.sync)
    requires Exposed(w, Subject(w.sync)) ==> Settled(keyOf, w, Subject(w.sync))
    ensures var v, x := Next(local, w, CallTunnel(Syncer, env)), Subject(w.sync);
            (Exposed(v, x) ==> Settled(keyOf, v, x)) <==> !Disturbs(keyOf, w, CallTunnel(Syncer, env))
  {
    match w.sync
    case Connecting(info, candidates) =>
    case Updating(id, key, ep) => assert Exposed(w, id);
    case Removing(id, key) =>
  }

  lemma MonitorCallAt(keyOf: string -> string, local: string, w: World, env: Env)
    requires Sound(keyOf, local, w) && Calling(w.monitor)
    requires Exposed(w, Subject(w.monitor)) ==> Settled(keyOf, w, Subject(w.monitor))
    ensures var v, x := Next(local, w, CallTunnel(Monitor, env)), Subject(w.monitor);
            Exposed(v, x) ==> Settled(keyOf, v, x)
  {}

  lemma CallKeepsAgreed(keyOf: string -> string, local: string, w: World, g: Goroutine, env: Env)
    requires Injective(keyOf) && Sound(keyOf, local, w) && Agreed(keyOf, w) && Calling(StageOf(w, g))
    ensures Agreed(keyOf, Next(local, w, CallTunnel(g, env))) <==> !Disturbs(keyOf, w, CallTunnel(g, env))
  {
    var v, x := Next(local, w, CallTunnel(g, env)), Subject(StageOf(w, g));
    forall id | id != x
      ensures Alike(keyOf, w, v, id)
    {
      CallLeavesOthers(keyOf, local, w, g, env, id);
    }
    OneAtATime(keyOf, w, v, x);
    if g.Syncer? {
      SyncCallAt(keyOf, local, w, env);
    } else {
      MonitorCallAt(keyOf, local, w, env);
    }
  }

  lemma RecordLeavesOthers(keyOf: string -> string, local: string, w: World, g: Goroutine, id: string)
    requires Sound(keyOf, local, w) && Recording(StageOf(w, g)) && id != Subject(StageOf(w, g))
    ensures Alike(keyOf, w, Next(local, w, Record(g)), id)
  {}

  lemma SyncRecordAt(keyOf: string -> string, local: string, w: World)
    requires Sound(keyOf, local, w) && Recording(w.sync)
    requires Exposed(w, Subject(w.sync)) ==> Settled(keyOf, w, Subject(w.sync))
    ensures var v, x := Next(local, w, Record(Syncer)), Subject(w.sync);
            (Exposed(v, x) ==> Settled(keyOf, v, x)) <==> !Disturbs(keyOf, w, Record(Syncer))
  {
    match w.sync
    case Added(info, ep) => assert Exposed(w, info.id);
    case Updated(id, key, ep) => assert Exposed(w, id);
    case Removed(id) =>
  }

  lemma MonitorRecordAt(keyOf: string -> string, local: string, w: World)
    requires Sound(keyOf, local, w) && Recording(w.monitor)
    requires Exposed(w, Subject(w.monitor)) ==> Settled(keyOf, w, Subject(w.monitor))
    ensures var v, x := Next(local, w, Record(Monitor)), Subject(w.monitor);
            (Exposed(v, x) ==> Settled(keyOf, v, x)) <==> !Disturbs(keyOf, w, Record(Monitor))
  {}

  lemma RecordKeepsAgreed(keyOf: string -> string, local: string, w: World, g: Goroutine)
    requires Sound(keyOf, local, w) && Agreed(keyOf, w) && Recording(StageOf(w, g))
    ensures Agreed(keyOf, Next(local, w, Record(g))) <==> !Disturbs(keyOf, w, Record(g))
  {
    var v, x := Next(local, w, Record(g)), Subject(StageOf(w, g));
    forall id | id != x
      ensures Alike(keyOf, w, v, id)
    {
      RecordLeavesOthers(keyOf, local, w, g, id);
    }
    OneAtATime(keyOf, w, v, x);
    if g.Syncer? {
      SyncRecordAt(keyOf, local, w);
    } else {
      MonitorRecordAt(keyOf, local, w);
    }
  }

  lemma LooksKeepAgreed(keyOf: string -> string, local: string, w: World, step: Step)
    requires Sound(keyOf, local, w) && Agreed(keyOf, w) && Enabled(keyOf, w, step)
    requires !step.CallTunnel? && !step.Record?
    ensures Agreed(keyOf, Next(local, w, step))
  {
    var v := Next(local, w, step);
    forall id | Exposed(v, id)
      ensures Settled(keyOf, v, id)
    {
      assert Exposed(w, id) && Settled(keyOf, w, id);
    }
  }

  /** The exact condition, step by step. */
  lemma StepKeepsAgreedExactlyWhen(keyOf: string -> string, local: string, w: World, step: Step)
    requires Injective(keyOf) && Sound(keyOf, local, w) && Agreed(keyOf, w) && Enabled(keyOf, w, step)
    ensures Agreed(keyOf, Next(local, w, step)) <==> !Disturbs(keyOf, w, step)
  {
    match step
    case CallTunnel(g, env) => CallKeepsAgreed(keyOf, local, w, g, env);
    case Record(g) => RecordKeepsAgreed(keyOf, local, w, g);
    case _ => LooksKeepAgreed(keyOf, local, w, step);
  }

  /** Over every interleaving: the tables have agreed all along, but for what was about to be
    recorded, if and only if no step so far disturbed them. */
  lemma {:induction false} RunsAgreeExactlyWhen(keyOf: string -> string, local: string, worlds: seq<World>, steps: seq<Step>, n: nat)
    requires Injective(keyOf) && Run(keyOf, local, worlds, steps) && n < |worlds|
    ensures (forall k :: 0 <= k <= n ==> Agreed(keyOf, worlds[k])) <==>
              forall i :: 0 <= i < n ==> !Disturbs(keyOf, worlds[i], steps[i])
  {
    if n > 0 {
      RunsAgreeExactlyWhen(keyOf, local, worlds, steps, n - 1);
      RunsTrack(keyOf, local, worlds, steps, n - 1);
      assert Steps(keyOf, local, worlds, steps, n - 1);
      if Agreed(keyOf, worlds[n - 1]) {
        StepKeepsAgreedExactlyWhen(keyOf, local, worlds[n - 1], steps[n - 1]);
      }
    }
  }

  /** Something about the peer has yet to be recorded. */
  ghost predicate Busy(w: World, id: string) {
    Pending(w.sync, id) || Pending(w.monitor, id) || w.sync == Removed(id)
  }

  /** So in an undisturbed run both tables have the same endpoint for every tracked peer that
    nothing is about to be recorded of; for all of them when both goroutines are idle. */
  lemma RunsStayInStep(keyOf: string -> string, local: string, worlds: seq<World>, steps: seq<Step>, n: nat)
    requires Injective(keyOf) && Run(keyOf, local, worlds, steps) && n < |worlds|
    requires forall i :: 0 <= i < n ==> !Disturbs(keyOf, worlds[i], steps[i])
    ensures forall id :: id in worlds[n].t.peers && !Busy(worlds[n], id) ==> InStepOn(worlds[n].t, id)
    ensures worlds[n].sync.Idle? && worlds[n].monitor.Idle? ==> InStep(worlds[n].t)
  {
    RunsAgreeExactlyWhen(keyOf, local, worlds, steps, n);
    RunsTrack(keyOf, local, worlds, steps, n);
    var w := worlds[n];
    assert Agreed(keyOf, w);
    forall id | id in w.t.peers && !Busy(w, id)
      ensures InStepOn(w.t, id)
    {
      assert Exposed(w, id) && Settled(keyOf, w, id);
    }
  }

  // ---- They come apart without any refusal ----

  /** Every endpoint is the given one, and the tunnel takes whatever it is offered. */
  function Permits(endpoint: string): Env {
    Env(true, _ => endpoint, _ => "", _ => "", (_, _) => true, (_, _) => true, _ => true)
  }

  ghost predicate NeverRefused(steps: seq<Step>) {
    forall i :: 0 <= i < |steps| && steps[i].CallTunnel? ==> exists ep :: steps[i].env == Permits(ep)
  }

  lemma RunExtends(keyOf: string -> string, local: string, worlds: seq<World>, steps: seq<Step>, step: Step, w: World)
      returns (ws: seq<World>, ss: seq<Step>)
    requires Run(keyOf, local, worlds, steps) && NeverRefused(steps) && Enabled(keyOf, worlds[|steps|], step)
    requires w == Next(local, worlds[|steps|], step)
    requires step.CallTunnel? ==> exists ep :: step.env == Permits(ep)
    ensures Run(keyOf, local, ws, ss) && NeverRefused(ss) && |ss| == |steps| + 1
    ensures ws[|ss|] == w
  {
    ws, ss := worlds + [w], steps + [step];
    forall i | 0 <= i < |ss|
      ensures Steps(keyOf, local, ws, ss, i)
    {
      assert i < |steps| ==> Steps(keyOf, local, worlds, steps, i);
    }
  }

  /** One peer, with what the manager has recorded and what the tunnel was told. */
  function Lone(info: PeerInfo, recorded: string, told: string): Tables {
    Tables(map[info.id := Conn(info.key, recorded)], map[info.key := Config(told, AllowedIP(info.virtualIP))])
  }

  /** A peer that can be connected. */
  ghost predicate Connectable(keyOf: string -> string, local: string, info: PeerInfo) {
    Foreign(local, info.id) && info.key == keyOf(info.id) && info.key != "" && info.virtualIP != ""
  }

  lemma LoneConnects(local: string, info: PeerInfo, e: string)
    requires e != "" && Foreign(local, info.id) && info.key != "" && info.virtualIP != ""
    ensures Wanted(Permits(e), local, Tables(map[], map[]), info) == Connecting(info, [e])
    ensures var (t, s) := Called(Syncer, Permits(e), Tables(map[], map[]), Connecting(info, [e]));
            s == Added(info, e) && Recorded(t, s) == Lone(info, e, e)
  {
    assert AllowedIP(info.virtualIP) != "";
    assert Candidates(Permits(e), info) == [e];
  }

  /** A round that connects the peer, run to its end. */
  lemma FirstRound(keyOf: string -> string, local: string, info: PeerInfo, e: string) returns (worlds: seq<World>, steps: seq<Step>)
    requires Connectable(keyOf, local, info) && e != ""
    ensures Run(keyOf, local, worlds, steps) && NeverRefused(steps)
    ensures worlds[|steps|] == World(Lone(info, e, e), Idle, Idle, Resting, {info.id})
  {
    LoneConnects(local, info, e);
    assert Observed(local, [info]) == {info.id} by { assert info in [info]; }
    var none, one := Tables(map[], map[]), Tables(map[], Lone(info, e, e).tun);
    assert [info][1..] == [] && [info.id][1..] == [];
    worlds, steps := [World(none, Idle, Idle, Resting, {})], [];
    worlds, steps := RunExtends(keyOf, local, worlds, steps, Fetch([info]), World(none, Idle, Idle, Listing([info]), {info.id}));
    worlds, steps := RunExtends(keyOf, local, worlds, steps, Look(Permits(e)),
                                World(none, Connecting(info, [e]), Idle, Listing([]), {info.id}));
    worlds, steps := RunExtends(keyOf, local, worlds, steps, CallTunnel(Syncer, Permits(e)),
                                World(one, Added(info, e), Idle, Listing([]), {info.id}));
    worlds, steps := RunExtends(keyOf, local, worlds, steps, Record(Syncer), World(Lone(info, e, e), Idle, Idle, Listing([]), {info.id}));
    worlds, steps := RunExtends(keyOf, local, worlds, steps, Snapshot([info.id]), World(Lone(info, e, e), Idle, Idle, Dropping([info.id]), {info.id}));
    worlds, steps := RunExtends(keyOf, local, worlds, steps, Drop, World(Lone(info, e, e), Idle, Idle, Dropping([]), {info.id}));
    worlds, steps := RunExtends(keyOf, local, worlds, steps, Finish, World(Lone(info, e, e), Idle, Idle, Resting, {info.id}));
  }

  /** The sync loop tells the tunnel x; the monitor tells it r, and records r; then the sync
    loop records x. */
  lemma Overtaken(local: string, info: PeerInfo, e: string, x: string, r: string)
    requires Foreign(local, info.id) && x != "" && r != "" && x != e
    ensures Wanted(Permits(x), local, Lone(info, e, e), info) == Updating(info.id, info.key, x)
    ensures Called(Syncer, Permits(x), Lone(info, e, e), Updating(info.id, info.key, x))
         == (Lone(info, e, x), Updated(info.id, info.key, x))
    ensures Called(Monitor, Permits(r), Lone(info, e, x), Updating(info.id, info.key, r))
         == (Lone(info, e, r), Updated(info.id, info.key, r))
    ensures Recorded(Lone(info, e, r), Updated(info.id, info.key, r)) == Lone(info, r, r)
    ensures Recorded(Lone(info, r, r), Updated(info.id, info.key, x)) == Lone(info, x, r)
  {
    LoneRewrites(info, e, e, e, x);
    LoneRewrites(info, e, x, e, r);
    LoneRewrites(info, e, r, r, r);
    LoneRewrites(info, r, r, x, r);
  }

  lemma LoneRewrites(info: PeerInfo, a: string, b: string, c: string, d: string)
    ensures Lone(info, a, b).peers[info.id := Conn(info.key, c)] == Lone(info, c, d).peers
    ensures Lone(info, a, b).tun[info.key := Config(d, AllowedIP(info.virtualIP))] == Lone(info, c, d).tun
  {}

  /** For every peer and all endpoints: a run in which the tunnel takes all it is offered, and
    after which, both goroutines done with the peer, the manager has x and the tunnel r.
    The next list with x does not lead to another update. */
  lemma InterleavingDrifts(keyOf: string -> string, local: string, info: PeerInfo, e: string, x: string, r: string)
      returns (worlds: seq<World>, steps: seq<Step>)
    requires Connectable(keyOf, local, info) && e != "" && x != "" && r != "" && x != e && x != r
    ensures Run(keyOf, local, worlds, steps) && NeverRefused(steps)
    ensures worlds[|steps|] == World(Lone(info, x, r), Idle, Idle, Listing([]), {info.id})
    ensures Drifted(worlds[|steps|].t, info.id) && Wanted(Permits(x), local, worlds[|steps|].t, info) == Idle
  {
    Overtaken(local, info, e, x, r);
    assert Observed(local, [info]) == {info.id} by { assert info in [info]; }
    assert [info][1..] == [];
    var id, key, latest := info.id, info.key, {info.id};
    worlds, steps := FirstRound(keyOf, local, info, e);
    worlds, steps := RunExtends(keyOf, local, worlds, steps, Fetch([info]), World(Lone(info, e, e), Idle, Idle, Listing([info]), latest));
    worlds, steps := RunExtends(keyOf, local, worlds, steps, Look(Permits(x)),
                                World(Lone(info, e, e), Updating(id, key, x), Idle, Listing([]), latest));
    worlds, steps := RunExtends(keyOf, local, worlds, steps, Probe(id, r),
                                World(Lone(info, e, e), Updating(id, key, x), Updating(id, key, r), Listing([]), latest));
    worlds, steps := RunExtends(keyOf, local, worlds, steps, CallTunnel(Syncer, Permits(x)),
                                World(Lone(info, e, x), Updated(id, key, x), Updating(id, key, r), Listing([]), latest));
    worlds, steps := RunExtends(keyOf, local, worlds, steps, CallTunnel(Monitor, Permits(r)),
                                World(Lone(info, e, r), Updated(id, key, x), Updated(id, key, r), Listing([]), latest));
    worlds, steps := RunExtends(keyOf, local, worlds, steps, Record(Monitor),
                                World(Lone(info, r, r), Updated(id, key, x), Idle, Listing([]), latest));
    worlds, steps := RunExtends(keyOf, local, worlds, steps, Record(Syncer),
                                World(Lone(info, x, r), Idle, Idle, Listing([]), latest));
  }
}
