/** Timed runs of the announcement cache, handlers being atomic; and what finer
  interleaving or confusable network ids would do. */
module CacheRuns {
  import opened Wrappers
  import opened AnnounceCache

  datatype Step =
    | Announce(a: Announcement)
    | GoOffline(network: string, peer: string)
    | List(style: Style, network: string)
    | Tick(elapsed: nat)

  ghost function Next(c: Cache, step: Step): Cache {
    match step
    case Announce(a) => Announced(c, a)
    case GoOffline(n, p) => Offline(c, n, p)
    case List(style, n) => if style.Coordination? then Unindexed(c, n, DeadMembers(c, n)) else c
    case Tick(elapsed) => c.(now := c.now + elapsed)
  }

  /** Announcements are complete; the handlers refuse others. */
  ghost predicate Runs(caches: seq<Cache>, steps: seq<Step>) {
    && |caches| == |steps| + 1
    && (forall i :: 0 <= i < |steps| && steps[i].Announce? ==> Complete(steps[i].a))
    && forall i :: 0 <= i < |steps| ==> caches[i + 1] == Next(caches[i], steps[i])
  }

  ghost predicate Run(caches: seq<Cache>, steps: seq<Step>) {
    Runs(caches, steps) && caches[0].entries == map[] && caches[0].indexes == map[]
  }

  /** No step announces for a network that could be confused with this one. */
  ghost predicate Distinguishable(steps: seq<Step>, network: string) {
    forall i :: 0 <= i < |steps| && steps[i].Announce? ==> !Confusable(steps[i].a.network, network)
  }

  ghost predicate Sound(c: Cache) {
    AllIndexed(c) && forall k :: k in c.indexes ==> c.indexes[k].expires <= c.now + INDEX_TTL
  }

  lemma TickKeepsIndexed(c: Cache, elapsed: nat)
    requires AllIndexed(c)
    ensures AllIndexed(c.(now := c.now + elapsed))
  {
    var d := c.(now := c.now + elapsed);
    forall key | EntryLive(d, key)
      ensures Indexed(d, key)
    {
      assert EntryLive(c, key) && Indexed(c, key);
    }
  }

  lemma NextIsSound(c: Cache, step: Step)
    requires Sound(c)
    ensures Sound(Next(c, step))
  {
    match step
    case Announce(a) => AnnounceKeepsIndexed(c, a);
    case GoOffline(n, p) => OfflineKeepsIndexed(c, n, p);
    case List(style, n) => PruneKeepsIndexed(c, n);
    case Tick(elapsed) => TickKeepsIndexed(c, elapsed);
  }

  /** In every timed run, each live announcement is in a live index: the index outlives
    the entry, and no handler drops a member that is still announced. */
  lemma {:induction false} RunsStayIndexed(caches: seq<Cache>, steps: seq<Step>, n: nat)
    requires Run(caches, steps) && n < |caches|
    ensures Sound(caches[n])
    ensures forall key :: EntryLive(caches[n], key) ==>
              var a := caches[n].entries[key].value; a.peer in Members(caches[n], a.network)
  {
    if n > 0 {
      RunsStayIndexed(caches, steps, n - 1);
      NextIsSound(caches[n - 1], steps[n - 1]);
    }
    forall key | EntryLive(caches[n], key)
      ensures var a := caches[n].entries[key].value; a.peer in Members(caches[n], a.network)
    {
      assert Indexed(caches[n], key);
    }
  }

  lemma {:induction false} RunsStaySeparate(caches: seq<Cache>, steps: seq<Step>, n: nat, network: string)
    requires Run(caches, steps) && Distinguishable(steps, network) && n < |caches|
    ensures Separate(caches[n], network)
    ensures forall key :: key in caches[n].entries ==> !Confusable(caches[n].entries[key].value.network, network)
  {
    if n > 0 {
      RunsStaySeparate(caches, steps, n - 1, network);
      assert caches[n] == Next(caches[n - 1], steps[n - 1]);
    }
  }

  /** So in any run, as long as network ids cannot be confused, listing through the index
    gives what laying all live announcements of the network over the rows directly
    gives. */
  lemma ListingIsDirectOverlay(caches: seq<Cache>, steps: seq<Step>, n: nat, style: Style, network: string, rows: PeerMap, peers: PeerMap)
    requires Run(caches, steps) && Distinguishable(steps, network) && n < |caches|
    requires Lists(style, caches[n], network, rows, peers)
    ensures peers == Overlaid(style, caches[n], network, rows)
  {
    RunsStayIndexed(caches, steps, n);
    RunsStaySeparate(caches, steps, n, network);
    ListsIsOverlaid(style, caches[n], network, rows, peers);
  }

  // ---- What a listing shows of a peer ----

  /** The step writes or deletes the entry. */
  ghost predicate Rewrites(step: Step, key: string) {
    match step
    case Announce(a) => EntryKey(a.network, a.peer) == key
    case GoOffline(n, p) => EntryKey(n, p) == key
    case _ => false
  }

  lemma {:induction false} EntryStays(caches: seq<Cache>, steps: seq<Step>, m: nat, n: nat, key: string)
    requires Runs(caches, steps) && m <= n < |caches| && forall i :: m <= i < n ==> !Rewrites(steps[i], key)
    ensures key in caches[n].entries <==> key in caches[m].entries
    ensures key in caches[n].entries ==> caches[n].entries[key] == caches[m].entries[key]
    decreases n
  {
    if m < n {
      EntryStays(caches, steps, m, n - 1, key);
      assert caches[n] == Next(caches[n - 1], steps[n - 1]);
    }
  }

  /** For 60 seconds after a peer announced, and until it announces anew or goes offline, every
    listing shows exactly that announcement; from then on it shows the bare row. */
  lemma AnnouncementShowsForSixtySeconds(caches: seq<Cache>, steps: seq<Step>, m: nat, n: nat, style: Style, rows: PeerMap, peers: PeerMap)
    requires Run(caches, steps) && m < n < |caches| && steps[m].Announce?
    requires var a := steps[m].a;
             && Distinguishable(steps, a.network) && a.peer in rows && Lists(style, caches[n], a.network, rows, peers)
             && forall i :: m < i < n ==> !Rewrites(steps[i], EntryKey(a.network, a.peer))
    ensures var a := steps[m].a;
            && a.peer in peers
            && if caches[n].now - caches[m].now < 60_000 then Shows(style, rows[a.peer], a, peers[a.peer])
               else peers[a.peer] == rows[a.peer]
  {
    var a := steps[m].a;
    RunsStayIndexed(caches, steps, n);
    RunsStaySeparate(caches, steps, n, a.network);
    assert caches[m + 1] == Next(caches[m], steps[m]);
    EntryStays(caches, steps, m + 1, n, EntryKey(a.network, a.peer));
    ListingShows(style, caches[n], a.network, rows, peers, a.peer);
  }

  /** After a peer went offline, and until it announces again, every listing shows the bare
    row. */
  lemma OfflineShowsNothing(caches: seq<Cache>, steps: seq<Step>, m: nat, n: nat, style: Style, rows: PeerMap, peers: PeerMap)
    requires Run(caches, steps) && m < n < |caches| && steps[m].GoOffline?
    requires var (network, peer) := (steps[m].network, steps[m].peer);
             && Distinguishable(steps, network) && peer in rows && Lists(style, caches[n], network, rows, peers)
             && forall i :: m < i < n ==> !Rewrites(steps[i], EntryKey(network, peer))
    ensures steps[m].peer in peers && peers[steps[m].peer] == rows[steps[m].peer]
  {
    var network, peer := steps[m].network, steps[m].peer;
    RunsStayIndexed(caches, steps, n);
    RunsStaySeparate(caches, steps, n, network);
    assert caches[m + 1] == Next(caches[m], steps[m]);
    OfflineRemoves(caches[m], network, peer);
    EntryStays(caches, steps, m + 1, n, EntryKey(network, peer));
    ListingShows(style, caches[n], network, rows, peers, peer);
  }

  // ---- When ids are confusable ----

  /** The run announces for these networks only. */
  ghost predicate Over(ids: set<string>, steps: seq<Step>) {
    forall i :: 0 <= i < |steps| && steps[i].Announce? ==> steps[i].a.network in ids
  }

  /** Whatever happens in these networks, every listing of this one is the direct overlay. */
  ghost predicate ListsFaithfully(style: Style, ids: set<string>, network: string) {
    forall caches, steps, n, rows, peers ::
      Run(caches, steps) && Over(ids, steps) && 0 <= n < |caches| && Lists(style, caches[n], network, rows, peers) ==>
        peers == Overlaid(style, caches[n], network, rows)
  }

  /** The cache after two announcements that share a key: the entry is the second's, and
    the index of the first still leads to it. */
  lemma SharedKey(first: Announcement, second: Announcement)
    requires EntryKey(first.network, first.peer) == EntryKey(second.network, second.peer)
    requires first.network != second.network
    ensures var d := Announced(Announced(Cache(map[], map[], 0), first), second);
            && Members(d, first.network) == {first.peer}
            && Lookup(d, first.network, first.peer) == Some(second)
            && forall key :: EntryLive(d, key) ==> d.entries[key].value == second
  {
    if IndexKey(first.network) == IndexKey(second.network) {
      IndexKeyInjective(first.network, second.network);
    }
  }

  /** Two networks with a common entry key: after an announcement in the one and then in
    the other, listing the first serves the second's endpoint, which no announcement of
    the first network carries. */
  lemma CrossedListing(style: Style, network: string, p: string, other: string, q: string)
      returns (caches: seq<Cache>, steps: seq<Step>, rows: PeerMap, peers: PeerMap)
    requires network != other && network != "" && other != "" && Collide(network, p, other, q)
    ensures Run(caches, steps) && |steps| == 2 && Over({network, other}, steps)
    ensures Lists(style, caches[2], network, rows, peers)
    ensures peers != Overlaid(style, caches[2], network, rows)
  {
    var first, second := Announcement(p, network, "y", ["y"]), Announcement(q, other, "y", ["y"]);
    var c := Cache(map[], map[], 0);
    var d := Announced(Announced(c, first), second);
    caches, steps := [c, Announced(c, first), d], [Announce(first), Announce(second)];
    rows := map[q := Peer(q, "", "x", [])];
    SharedKey(first, second);
    var order := [p];
    assert [] + [p] == order && Enumerates(order, {p});
    LaidExtends(style, d, network, rows, [], p);
    peers := Laid(style, d, network, rows, order);
    assert peers[q].endpoint == "y";
    assert Overlaid(style, d, network, rows)[q].endpoint == "x";
  }

  /** The exact condition: every listing of a network is the direct overlay, in all runs
    over a set of network ids, if and only if none of them is confusable with it. */
  lemma ListsFaithfullyExactlyWhen(style: Style, ids: set<string>, network: string)
    requires network in ids && "" !in ids
    ensures ListsFaithfully(style, ids, network) <==> forall m :: m in ids ==> !Confusable(m, network)
  {
    if m :| m in ids && Confusable(m, network) {
      KeysCollideExactlyWhen(network, m);
      var p, q :| Collide(network, p, m, q);
      var caches, steps, rows, peers := CrossedListing(style, network, p, m, q);
      assert Over(ids, steps);
    } else {
      forall caches, steps, n, rows, peers |
        Run(caches, steps) && Over(ids, steps) && 0 <= n < |caches| && Lists(style, caches[n], network, rows, peers)
        ensures peers == Overlaid(style, caches[n], network, rows)
      {
        ListingIsDirectOverlay(caches, steps, n, style, network, rows, peers);
      }
    }
  }

  // ---- At command granularity ----

  /** A list that found no entry and removes the member after the peer has announced again
    hides a live announcement. */
  lemma LateRemovalHides(c: Cache, a: Announcement)
    requires Lookup(c, a.network, a.peer).None?
    ensures var d := Unindexed(Announced(c, a), a.network, {a.peer});
            Lookup(d, a.network, a.peer) == Some(a) && a.peer !in Members(d, a.network)
  {}

  ghost predicate Announces(step: Step, network: string, peer: string) {
    step.Announce? && step.a.network == network && step.a.peer == peer
  }

  /** Only its own announcement puts a peer into the index, and it always does. */
  lemma IndexedExactlyByAnnouncing(c: Cache, step: Step, network: string, peer: string)
    requires peer !in Members(c, network)
    ensures peer in Members(Next(c, step), network) <==> Announces(step, network, peer)
  {
    match step
    case Announce(a) => IndexKeysDiffer(a.network, network);
    case GoOffline(n, p) => IndexKeysDiffer(n, network);
    case List(style, n) => IndexKeysDiffer(n, network);
    case Tick(elapsed) =>
  }

  lemma IndexKeysDiffer(m: string, n: string)
    ensures m != n ==> IndexKey(m) != IndexKey(n)
  {
    if IndexKey(m) == IndexKey(n) {
      IndexKeyInjective(m, n);
    }
  }

  /** So what is hidden stays hidden, over every run, exactly until the peer announces
    again. */
  lemma {:induction false} HiddenUntilAnnounced(caches: seq<Cache>, steps: seq<Step>, n: nat, network: string, peer: string)
    requires Runs(caches, steps) && n < |steps| && peer !in Members(caches[0], network)
    requires forall i :: 0 <= i < n ==> !Announces(steps[i], network, peer)
    ensures peer !in Members(caches[n], network)
    ensures peer in Members(caches[n + 1], network) <==> Announces(steps[n], network, peer)
  {
    if n > 0 {
      HiddenUntilAnnounced(caches, steps, n - 1, network, peer);
    }
    IndexedExactlyByAnnouncing(caches[n], steps[n], network, peer);
  }
}
