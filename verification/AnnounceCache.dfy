/** The announcement cache that server/internal/api/coord_handler.go and
  member_tunnel_handler.go keep in Redis: entries that live 60 seconds, found through a
  per-network index that lives 70.

  Time is in milliseconds.  A key exists while the clock is before its expiry; nothing
  is evicted early. */
module AnnounceCache {
  import opened Wrappers
  import opened Sets

  const ENTRY_TTL: int := 60_000
  const INDEX_TTL: int := 70_000

  datatype Announcement = Announcement(peer: string, network: string, endpoint: string, locals: seq<string>)

  datatype Entry = Entry(value: Announcement, expires: int)

  datatype Index = Index(members: set<string>, expires: int)

  /** The two kinds of key have different prefixes, so each has a map of its own. */
  datatype Cache = Cache(entries: map<string, Entry>, indexes: map<string, Index>, now: int)

  function EntryKey(network: string, peer: string): string {
    "coord:announce:" + network + ":" + peer
  }

  function IndexKey(network: string): string {
    "coord:network:" + network + ":peers"
  }

  lemma KeyspacesDisjoint(network: string, peer: string, other: string)
    ensures EntryKey(network, peer) != IndexKey(other)
  {
    assert EntryKey(network, peer)[6] == 'a' && IndexKey(other)[6] == 'n';
  }

  lemma IndexKeyInjective(m: string, n: string)
    requires IndexKey(m) == IndexKey(n)
    ensures m == n
  {
    assert IndexKey(m)[14..|IndexKey(m)| - 6] == m && IndexKey(n)[14..|IndexKey(n)| - 6] == n;
  }

  /** One network id is the other followed by a colon and more. */
  predicate Confusable(m: string, n: string) {
    m != n && (m + ":" <= n || n + ":" <= m)
  }

  lemma LongerIsConfusable(m: string, p: string, n: string, q: string)
    requires EntryKey(m, p) == EntryKey(n, q) && |m| < |n|
    ensures m + ":" <= n
  {
    var k := EntryKey(m, p)[15..];
    assert k == m + (":" + p) && k == n + (":" + q);
    assert k[..|m| + 1] == m + ":" && k[..|n|] == n;
    assert n[..|m| + 1] == k[..|n|][..|m| + 1] == m + ":";
  }

  /** Two peers, with ids that are not empty, share an entry key. */
  ghost predicate Collide(m: string, p: string, n: string, q: string) {
    p != "" && q != "" && EntryKey(m, p) == EntryKey(n, q)
  }

  /** Two network ids can yield the same entry key exactly when they are confusable. */
  lemma KeysCollideExactlyWhen(m: string, n: string)
    requires m != n
    ensures (exists p, q :: Collide(m, p, n, q)) <==> Confusable(m, n)
  {
    forall p, q | Collide(m, p, n, q)
      ensures Confusable(m, n)
    {
      EntryKeySeparates(m, p, n, q);
    }
    if m + ":" <= n {
      CollidingPeer(m, n);
    } else if n + ":" <= m {
      CollidingPeer(n, m);
      assert Collide(m, "x", n, m[|n| + 1..] + ":x");
    }
  }

  lemma CollidingPeer(m: string, n: string)
    requires m + ":" <= n
    ensures Collide(m, n[|m| + 1..] + ":x", n, "x")
  {
    assert n == m + ":" + n[|m| + 1..];
  }

  /** Equal keys come from the same network and peer, or from confusable networks. */
  lemma EntryKeySeparates(m: string, p: string, n: string, q: string)
    requires EntryKey(m, p) == EntryKey(n, q)
    ensures Confusable(m, n) || (m == n && p == q)
  {
    if |m| < |n| {
      LongerIsConfusable(m, p, n, q);
    } else if |n| < |m| {
      LongerIsConfusable(n, q, m, p);
    } else {
      var k := EntryKey(m, p)[15..];
      assert k == m + (":" + p) && k == n + (":" + q);
      assert k[..|m|] == m && k[..|n|] == n && k[|m| + 1..] == p && k[|n| + 1..] == q;
    }
  }

  // ---- Commands ----

  predicate IndexLive(c: Cache, network: string) {
    IndexKey(network) in c.indexes && c.now < c.indexes[IndexKey(network)].expires
  }

  /** SMEMBERS */
  function Members(c: Cache, network: string): set<string> {
    if IndexLive(c, network) then c.indexes[IndexKey(network)].members else {}
  }

  predicate EntryLive(c: Cache, key: string) {
    key in c.entries && c.now < c.entries[key].expires
  }

  /** GET */
  function Lookup(c: Cache, network: string, peer: string): Option<Announcement> {
    var key := EntryKey(network, peer);
    if EntryLive(c, key) then Some(c.entries[key].value) else None
  }

  /** What the handlers ask of an announcement, once its fields are trimmed. */
  predicate Complete(a: Announcement) {
    a.peer != "" && a.network != "" && a.endpoint != ""
  }

  /** SET with expiry, SADD and EXPIRE, in one transaction. */
  function Announced(c: Cache, a: Announcement): Cache {
    c.(entries := c.entries[EntryKey(a.network, a.peer) := Entry(a, c.now + ENTRY_TTL)],
       indexes := c.indexes[IndexKey(a.network) := Index(Members(c, a.network) + {a.peer}, c.now + INDEX_TTL)])
  }

  /** SREM, which deletes a set it empties. */
  function Unindexed(c: Cache, network: string, peers: set<string>): Cache {
    if !IndexLive(c, network) then c
    else
      var left := Members(c, network) - peers;
      if left == {} then c.(indexes := c.indexes - {IndexKey(network)})
      else c.(indexes := c.indexes[IndexKey(network) := c.indexes[IndexKey(network)].(members := left)])
  }

  /** DEL and SREM, in one transaction. */
  function Offline(c: Cache, network: string, peer: string): Cache {
    Unindexed(c.(entries := c.entries - {EntryKey(network, peer)}), network, {peer})
  }

  // ---- The index never hides a live announcement ----

  ghost predicate Indexed(c: Cache, key: string)
    requires key in c.entries
  {
    var a := c.entries[key].value;
    && key == EntryKey(a.network, a.peer)
    && IndexKey(a.network) in c.indexes
    && a.peer in c.indexes[IndexKey(a.network)].members
    && c.entries[key].expires <= c.indexes[IndexKey(a.network)].expires
  }

  ghost predicate AllIndexed(c: Cache) {
    forall key :: EntryLive(c, key) ==> Indexed(c, key)
  }

  lemma AnnounceKeepsIndexed(c: Cache, a: Announcement)
    requires AllIndexed(c) && forall k :: k in c.indexes ==> c.indexes[k].expires <= c.now + INDEX_TTL
    ensures AllIndexed(Announced(c, a))
  {
    var d := Announced(c, a);
    forall key | EntryLive(d, key)
      ensures Indexed(d, key)
    {
      if key != EntryKey(a.network, a.peer) {
        assert EntryLive(c, key) && Indexed(c, key);
        var b := c.entries[key].value;
        if IndexKey(b.network) == IndexKey(a.network) {
          IndexKeyInjective(b.network, a.network);
        }
      }
    }
  }

  lemma UnindexAt(c: Cache, network: string, peers: set<string>, key: string)
    requires EntryLive(c, key) && Indexed(c, key)
    ensures Indexed(Unindexed(c, network, peers), key)
       <==> (c.entries[key].value.network == network ==> c.entries[key].value.peer !in peers)
  {
    var a := c.entries[key].value;
    if a.network == network {
      assert IndexLive(c, network) && a.peer in Members(c, network);
      assert a.peer in Members(c, network) - peers <==> a.peer !in peers;
    } else if IndexKey(a.network) == IndexKey(network) {
      IndexKeyInjective(a.network, network);
    }
  }

  /** Taking peers out of an index is safe exactly when none of them is announced there
    at that moment. */
  lemma UnindexKeepsIndexed(c: Cache, network: string, peers: set<string>)
    requires AllIndexed(c)
    ensures AllIndexed(Unindexed(c, network, peers)) <==>
              forall key :: EntryLive(c, key) && c.entries[key].value.network == network ==> c.entries[key].value.peer !in peers
  {
    var d := Unindexed(c, network, peers);
    forall key | EntryLive(c, key)
      ensures Indexed(d, key) <==> (c.entries[key].value.network == network ==> c.entries[key].value.peer !in peers)
    {
      UnindexAt(c, network, peers, key);
    }
    assert forall key :: EntryLive(d, key) <==> EntryLive(c, key);
  }

  lemma OfflineKeepsIndexed(c: Cache, network: string, peer: string)
    requires AllIndexed(c)
    ensures AllIndexed(Offline(c, network, peer))
  {
    var d := c.(entries := c.entries - {EntryKey(network, peer)});
    forall key | EntryLive(d, key)
      ensures Indexed(d, key)
    {
      assert EntryLive(c, key) && Indexed(c, key);
    }
    UnindexKeepsIndexed(d, network, {peer});
  }

  /** It removes the peer's own entry and membership, and nothing else. */
  lemma OfflineRemoves(c: Cache, network: string, peer: string)
    ensures var d := Offline(c, network, peer);
            && Lookup(d, network, peer) == None && Members(d, network) == Members(c, network) - {peer}
            && (forall n :: n != network ==> Members(d, n) == Members(c, n))
            && forall n, p :: EntryKey(n, p) != EntryKey(network, peer) ==> Lookup(d, n, p) == Lookup(c, n, p)
  {
    forall n | n != network
      ensures IndexKey(n) != IndexKey(network)
    {
      if IndexKey(n) == IndexKey(network) {
        IndexKeyInjective(n, network);
      }
    }
  }

  // ---- Listing ----

  datatype Peer = Peer(id: string, name: string, endpoint: string, locals: seq<string>)

  type PeerMap = map<string, Peer>

  /** The two handlers: coordination overwrites both fields, the member tunnel only what
    is not empty. */
  datatype Style = Coordination | MemberTunnel

  function Overlay(style: Style, p: Peer, a: Announcement): (q: Peer)
    ensures q.id == p.id
  {
    match style
    case Coordination => p.(endpoint := a.endpoint, locals := a.locals)
    case MemberTunnel =>
      p.(endpoint := if a.endpoint != "" then a.endpoint else p.endpoint,
         locals := if a.locals != [] then a.locals else p.locals)
  }

  /** Every live announcement of the network, laid over the online rows directly. */
  ghost function Overlaid(style: Style, c: Cache, network: string, rows: PeerMap): PeerMap {
    map id | id in rows ::
      if exists key :: EntryLive(c, key) && c.entries[key].value.network == network && c.entries[key].value.peer == id
      then var key :| EntryLive(c, key) && c.entries[key].value.network == network && c.entries[key].value.peer == id;
           Overlay(style, rows[id], c.entries[key].value)
      else rows[id]
  }

  /** One index member's entry, laid over the row that the entry names. */
  function LaidOne(style: Style, c: Cache, network: string, peers: PeerMap, member: string): PeerMap {
    match Lookup(c, network, member)
    case None => peers
    case Some(a) => if a.peer in peers then peers[a.peer := Overlay(style, peers[a.peer], a)] else peers
  }

  /** The entries of the members in turn. */
  function Laid(style: Style, c: Cache, network: string, rows: PeerMap, order: seq<string>): PeerMap {
    if order == [] then rows
    else LaidOne(style, c, network, Laid(style, c, network, rows, order[..|order| - 1]), order[|order| - 1])
  }

  ghost predicate Enumerates(order: seq<string>, members: set<string>) {
    && (forall p :: p in order <==> p in members)
    && forall i, j :: 0 <= i < j < |order| ==> order[i] != order[j]
  }

  /** What a listing may return: SMEMBERS gives the members in any order. */
  ghost predicate Lists(style: Style, c: Cache, network: string, rows: PeerMap, peers: PeerMap) {
    exists order :: Enumerates(order, Members(c, network)) && peers == Laid(style, c, network, rows, order)
  }

  /** No live announcement is for a network that could be confused with this one. */
  ghost predicate Separate(c: Cache, network: string) {
    forall key :: EntryLive(c, key) ==> !Confusable(c.entries[key].value.network, network)
  }

  /** What a GET through the index finds is the peer's own announcement. */
  lemma LookupIsOwn(c: Cache, network: string, peer: string)
    requires AllIndexed(c) && Separate(c, network)
    ensures match Lookup(c, network, peer)
            case Some(a) => a.network == network && a.peer == peer && peer in Members(c, network)
            case None => (forall key :: EntryLive(c, key) && c.entries[key].value.network == network ==>
                           c.entries[key].value.peer != peer)
  {
    var key := EntryKey(network, peer);
    if EntryLive(c, key) {
      assert Indexed(c, key);
      var a := c.entries[key].value;
      EntryKeySeparates(a.network, a.peer, network, peer);
    } else {
      forall k | EntryLive(c, k) && c.entries[k].value.network == network
        ensures c.entries[k].value.peer != peer
      {
        assert Indexed(c, k);
      }
    }
  }

  /** Direct overlay, row by row. */
  lemma OverlaidAt(style: Style, c: Cache, network: string, rows: PeerMap, id: string)
    requires AllIndexed(c) && Separate(c, network) && id in rows
    ensures Overlaid(style, c, network, rows)[id] ==
              match Lookup(c, network, id)
              case Some(a) => Overlay(style, rows[id], a)
              case None => rows[id]
  {
    LookupIsOwn(c, network, id);
    if Lookup(c, network, id).Some? {
      var own := EntryKey(network, id);
      assert EntryLive(c, own);
      forall key | EntryLive(c, key) && c.entries[key].value.network == network && c.entries[key].value.peer == id
        ensures key == own
      {
        assert Indexed(c, key);
      }
    }
  }

  /** What a row looks like under an announcement, field by field. */
  ghost predicate Shows(style: Style, row: Peer, a: Announcement, shown: Peer) {
    && shown.id == row.id && shown.name == row.name
    && (style.Coordination? ==> shown.endpoint == a.endpoint && shown.locals == a.locals)
    && (style.MemberTunnel? ==>
          && (shown.endpoint == a.endpoint || (a.endpoint == "" && shown.endpoint == row.endpoint))
          && (a.locals != [] ==> shown.locals == a.locals) && (a.locals == [] ==> shown.locals == row.locals))
  }

  /** A listing shows a peer's live announcement over its row, and the bare row otherwise. */
  lemma ListingShows(style: Style, c: Cache, network: string, rows: PeerMap, peers: PeerMap, id: string)
    requires AllIndexed(c) && Separate(c, network) && Lists(style, c, network, rows, peers) && id in rows
    ensures id in peers
    ensures match Lookup(c, network, id)
            case Some(a) => Shows(style, rows[id], a, peers[id])
            case None => peers[id] == rows[id]
  {
    ListsIsOverlaid(style, c, network, rows, peers);
    OverlaidAt(style, c, network, rows, id);
  }

  class Coordinator {
    var cache: Cache

    constructor (now: int)
      ensures cache == Cache(map[], map[], now)
    {
      cache := Cache(map[], map[], now);
    }

    method Announce(a: Announcement) returns (ok: bool)
      modifies this
      ensures ok == Complete(a)
      ensures cache == if ok then Announced(old(cache), a) else old(cache)
    {
      if a.peer == "" || a.network == "" || a.endpoint == "" {
        return false;
      }
      var key, indexKey := EntryKey(a.network, a.peer), IndexKey(a.network);
      var members := Members(cache, a.network);
      cache := cache.(entries := cache.entries[key := Entry(a, cache.now + ENTRY_TTL)]);
      cache := cache.(indexes := cache.indexes[indexKey := Index(members + {a.peer}, cache.now + INDEX_TTL)]);
      return true;
    }

    /** ListPeers and Peers; the coordination handler also drops index members whose
      entry is gone. */
    method ListPeers(style: Style, network: string, rows: PeerMap) returns (peers: PeerMap)
      modifies this
      ensures Lists(style, old(cache), network, rows, peers)
      ensures old(AllIndexed(cache) && Separate(cache, network)) ==> peers == Overlaid(style, old(cache), network, rows)
      ensures cache == if style.Coordination? then Unindexed(old(cache), network, DeadMembers(old(cache), network))
                       else old(cache)
      ensures old(AllIndexed(cache)) ==> AllIndexed(cache)
    {
      var dead;
      peers, dead := Merge(style, cache, network, rows);
      if AllIndexed(cache) && Separate(cache, network) {
        ListsIsOverlaid(style, cache, network, rows, peers);
      }
      if style.Coordination? {
        if AllIndexed(cache) {
          PruneKeepsIndexed(cache, network);
        }
        cache := Unindexed(cache, network, dead);
      }
    }
  }

  ghost function DeadMembers(c: Cache, network: string): set<string> {
    set p | p in Members(c, network) && Lookup(c, network, p).None?
  }

  lemma PruneKeepsIndexed(c: Cache, network: string)
    requires AllIndexed(c)
    ensures AllIndexed(Unindexed(c, network, DeadMembers(c, network)))
  {
    forall key | EntryLive(c, key) && c.entries[key].value.network == network
      ensures c.entries[key].value.peer !in DeadMembers(c, network)
    {
      assert Indexed(c, key);
    }
    UnindexKeepsIndexed(c, network, DeadMembers(c, network));
  }

  /** What the index leads to is the member's own announcement. */
  ghost predicate OwnLookups(c: Cache, network: string) {
    forall p :: p in Members(c, network) && Lookup(c, network, p).Some? ==> Lookup(c, network, p).value.peer == p
  }

  lemma LookupsAreOwn(c: Cache, network: string)
    requires AllIndexed(c) && Separate(c, network)
    ensures OwnLookups(c, network)
  {
    forall p | p in Members(c, network) && Lookup(c, network, p).Some?
      ensures Lookup(c, network, p).value.peer == p
    {
      LookupIsOwn(c, network, p);
    }
  }

  /** The loop: fetch each index member's entry and lay it over the row it names. */
  method Merge(style: Style, c: Cache, network: string, rows: PeerMap) returns (peers: PeerMap, dead: set<string>)
    ensures Lists(style, c, network, rows, peers)
    ensures dead == DeadMembers(c, network)
  {
    ghost var all := DeadMembers(c, network);
    ghost var order: seq<string> := [];
    peers, dead := rows, {};
    var members := Members(c, network);
    var todo := members;
    while todo != {}
      invariant todo <= members
      invariant dead == all - todo
      invariant Enumerates(order, members - todo)
      invariant peers == Laid(style, c, network, rows, order)
      decreases |todo|
    {
      var p :| p in todo;
      var entry := Lookup(c, network, p);
      Visited(all, todo, p);
      LaidExtends(style, c, network, rows, order, p);
      EnumeratesExtends(order, members, todo, p);
      if entry.None? {
        dead := dead + {p};
      } else if entry.value.peer in peers {
        peers := peers[entry.value.peer := Overlay(style, peers[entry.value.peer], entry.value)];
      }
      order := order + [p];
      todo := todo - {p};
    }
    assert members - todo == members && all - todo == all;
  }

  lemma LaidExtends(style: Style, c: Cache, network: string, rows: PeerMap, order: seq<string>, p: string)
    ensures Laid(style, c, network, rows, order + [p]) == LaidOne(style, c, network, Laid(style, c, network, rows, order), p)
  {
    assert (order + [p])[..|order|] == order;
  }

  lemma EnumeratesExtends(order: seq<string>, members: set<string>, todo: set<string>, p: string)
    requires Enumerates(order, members - todo) && p in todo && todo <= members
    ensures Enumerates(order + [p], members - (todo - {p}))
  {}

  /** Rows of the peers done so far carry their announcement, the others are untouched. */
  ghost predicate MergedUpTo(style: Style, c: Cache, network: string, rows: PeerMap, peers: PeerMap, done: seq<string>) {
    && peers.Keys == rows.Keys
    && forall id :: id in rows ==>
         peers[id] == if id in done && Lookup(c, network, id).Some?
                      then Overlay(style, rows[id], Lookup(c, network, id).value) else rows[id]
  }

  lemma MergeOne(style: Style, c: Cache, network: string, rows: PeerMap, peers: PeerMap, done: seq<string>, p: string)
    requires MergedUpTo(style, c, network, rows, peers, done) && p !in done
    requires Lookup(c, network, p).Some? ==> Lookup(c, network, p).value.peer == p
    ensures MergedUpTo(style, c, network, rows, LaidOne(style, c, network, peers, p), done + [p])
  {}

  lemma {:induction false} LaidIsMerged(style: Style, c: Cache, network: string, rows: PeerMap, order: seq<string>)
    requires OwnLookups(c, network) && forall p :: p in order ==> p in Members(c, network)
    requires forall i, j :: 0 <= i < j < |order| ==> order[i] != order[j]
    ensures MergedUpTo(style, c, network, rows, Laid(style, c, network, rows, order), order)
    decreases |order|
  {
    if order != [] {
      var n := |order| - 1;
      LaidIsMerged(style, c, network, rows, order[..n]);
      assert order == order[..n] + [order[n]] && order[n] !in order[..n];
      MergeOne(style, c, network, rows, Laid(style, c, network, rows, order[..n]), order[..n], order[n]);
    }
  }

  /** Unless ids are confusable, whatever a listing returns is the direct overlay. */
  lemma ListsIsOverlaid(style: Style, c: Cache, network: string, rows: PeerMap, peers: PeerMap)
    requires AllIndexed(c) && Separate(c, network)
    requires Lists(style, c, network, rows, peers)
    ensures peers == Overlaid(style, c, network, rows)
  {
    var order :| Enumerates(order, Members(c, network)) && peers == Laid(style, c, network, rows, order);
    LookupsAreOwn(c, network);
    LaidIsMerged(style, c, network, rows, order);
    forall id | id in rows
      ensures peers[id] == Overlaid(style, c, network, rows)[id]
    {
      LookupIsOwn(c, network, id);
      OverlaidAt(style, c, network, rows, id);
    }
    assert peers.Keys == Overlaid(style, c, network, rows).Keys;
  }
}
