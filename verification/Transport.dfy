/** Traffic after the handshake, as runs over the two directions of a link.

  Frames travel in order; a sender may rekey at any point, and its peer rekeys when
  the mark reaches it.  Bytes that fail to open may be offered to a receiver at any
  time. */
module TransportRuns {
  import opened Wrappers
  import opened Crypto
  import opened CipherStates
  import opened SymmetricStates
  import opened IKPattern

  datatype Item = Frame(ad: bytes, plaintext: bytes, ciphertext: bytes) | RekeyMark

  /** One direction; sent and got record plaintexts, failed counts frames that a
    receiver could not open. */
  datatype Lane = Lane(send: Cipher, receive: Cipher, wire: seq<Item>, sent: seq<bytes>, got: seq<bytes>, failed: nat)

  datatype Action = Send(ad: bytes, plaintext: bytes) | RekeySender | Deliver | Inject(ad: bytes, junk: bytes)

  datatype Direction = Forward | Backward

  datatype Link = Link(forward: Lane, backward: Lane) {
    function On(d: Direction): Lane {
      if d.Forward? then forward else backward
    }
  }

  function NewLane(send: Cipher, receive: Cipher): Lane {
    Lane(send, receive, [], [], [], 0)
  }

  function Stepped(c: Suite, l: Lane, a: Action): Lane {
    match a
    case Send(ad, p) =>
      var (cipher, r) := Encrypted(c, l.send, ad, p);
      if r.Err? then l.(send := cipher)
      else l.(send := cipher, wire := l.wire + [Frame(ad, p, r.value)], sent := l.sent + [p])
    case RekeySender =>
      l.(send := Rekeyed(c, l.send).0, wire := l.wire + [RekeyMark])
    case Inject(ad, junk) =>
      l.(receive := Decrypted(c, l.receive, ad, junk).0)
    case Deliver =>
      if l.wire == [] then l
      else
        match l.wire[0]
        case RekeyMark => l.(receive := Rekeyed(c, l.receive).0, wire := l.wire[1..])
        case Frame(ad, _, ct) =>
          var (cipher, r) := Decrypted(c, l.receive, ad, ct);
          if r.Err? then l.(receive := cipher, wire := l.wire[1..], failed := l.failed + 1)
          else l.(receive := cipher, wire := l.wire[1..], got := l.got + [r.value])
  }

  function LinkStepped(c: Suite, k: Link, d: Direction, a: Action): Link {
    if d.Forward? then k.(forward := Stepped(c, k.forward, a)) else k.(backward := Stepped(c, k.backward, a))
  }

  function Run(c: Suite, k: Link, steps: seq<(Direction, Action)>): Link
    decreases |steps|
  {
    if steps == [] then k else Run(c, LinkStepped(c, k, steps[0].0, steps[0].1), steps[1..])
  }

  /** Injected bytes never authenticate. */
  ghost predicate Unforged(c: Suite, k: Link, steps: seq<(Direction, Action)>)
    decreases |steps|
  {
    steps == [] ||
    (&& (steps[0].1.Inject? ==>
           Decrypted(c, k.On(steps[0].0).receive, steps[0].1.ad, steps[0].1.junk).1.Err?)
     && Unforged(c, LinkStepped(c, k, steps[0].0, steps[0].1), steps[1..]))
  }

  // ---- Lockstep ----

  /** Consuming the wire would bring the receiver to exactly the sender's state. */
  ghost predicate InFlight(c: Suite, receive: Cipher, wire: seq<Item>, send: Cipher)
    decreases |wire|
  {
    receive.hasKey &&
    if wire == [] then receive == send
    else
      match wire[0]
      case RekeyMark => InFlight(c, Rekeyed(c, receive).0, wire[1..], send)
      case Frame(ad, p, ct) =>
        && receive.nonce < MAX_NONCE
        && ct == FrameSeal(receive, ad, p).Output(c)
        && InFlight(c, receive.(nonce := receive.nonce + 1), wire[1..], send)
  }

  ghost function Plaintexts(wire: seq<Item>): seq<bytes> {
    if wire == [] then []
    else (if wire[0].Frame? then [wire[0].plaintext] else []) + Plaintexts(wire[1..])
  }

  /** Nothing failed, and what was received plus what is in flight is what was sent. */
  ghost predicate InLockstep(c: Suite, l: Lane) {
    && InFlight(c, l.receive, l.wire, l.send)
    && l.failed == 0
    && l.sent == l.got + Plaintexts(l.wire)
  }

  ghost predicate LinkInLockstep(c: Suite, k: Link) {
    forall d: Direction :: InLockstep(c, k.On(d))
  }

  lemma {:induction false} InFlightExtends(c: Suite, receive: Cipher, wire: seq<Item>, send: Cipher, item: Item, next: Cipher)
    requires InFlight(c, receive, wire, send) && InFlight(c, send, [item], next)
    ensures InFlight(c, receive, wire + [item], next)
    decreases |wire|
  {
    if wire == [] {
      assert wire + [item] == [item];
    } else {
      var after := if wire[0].RekeyMark? then Rekeyed(c, receive).0 else receive.(nonce := receive.nonce + 1);
      InFlightExtends(c, after, wire[1..], send, item, next);
      assert (wire + [item])[1..] == wire[1..] + [item];
    }
  }

  lemma {:induction false} PlaintextsExtend(wire: seq<Item>, item: Item)
    ensures Plaintexts(wire + [item]) == Plaintexts(wire) + (if item.Frame? then [item.plaintext] else [])
  {
    if wire == [] {
      assert wire + [item] == [item];
    } else {
      PlaintextsExtend(wire[1..], item);
      assert (wire + [item])[1..] == wire[1..] + [item];
    }
  }

  lemma SenderIsKeyed(c: Suite, receive: Cipher, wire: seq<Item>, send: Cipher)
    requires InFlight(c, receive, wire, send)
    ensures send.hasKey
    decreases |wire|
  {}

  /** Putting on the wire what takes the sender to its next state keeps lockstep. */
  lemma AppendKeepsLockstep(c: Suite, l: Lane, item: Item, next: Cipher)
    requires InLockstep(c, l) && InFlight(c, l.send, [item], next)
    ensures InLockstep(c, l.(send := next, wire := l.wire + [item],
                             sent := l.sent + (if item.Frame? then [item.plaintext] else [])))
  {
    InFlightExtends(c, l.receive, l.wire, l.send, item, next);
    PlaintextsExtend(l.wire, item);
    var tail := if item.Frame? then [item.plaintext] else [];
    assert l.got + (Plaintexts(l.wire) + tail) == l.got + Plaintexts(l.wire) + tail;
  }

  lemma SendKeepsLockstep(c: Suite, l: Lane, ad: bytes, p: bytes)
    requires InLockstep(c, l)
    ensures InLockstep(c, Stepped(c, l, Send(ad, p)))
  {
    SenderIsKeyed(c, l.receive, l.wire, l.send);
    if l.send.nonce < MAX_NONCE {
      var (next, r) := Encrypted(c, l.send, ad, p);
      var item := Frame(ad, p, r.value);
      assert [item][1..] == [] && InFlight(c, next, [], next);
      AppendKeepsLockstep(c, l, item, next);
    }
  }

  lemma RekeyKeepsLockstep(c: Suite, l: Lane)
    requires SealOpens(c) && InLockstep(c, l)
    ensures InLockstep(c, Stepped(c, l, RekeySender))
  {
    SenderIsKeyed(c, l.receive, l.wire, l.send);
    var next := Rekeyed(c, l.send).0;
    assert [RekeyMark][1..] == [] && InFlight(c, next, [], next);
    AppendKeepsLockstep(c, l, RekeyMark, next);
    assert l.sent + [] == l.sent;
  }

  lemma DeliverKeepsLockstep(c: Suite, l: Lane)
    requires SealOpens(c) && InLockstep(c, l)
    ensures InLockstep(c, Stepped(c, l, Deliver))
    ensures l.wire != [] && l.wire[0].Frame? ==> Stepped(c, l, Deliver).got == l.got + [l.wire[0].plaintext]
  {
    if l.wire != [] && l.wire[0].Frame? {
      var f := l.wire[0];
      assert Decrypted(c, l.receive, f.ad, f.ciphertext) == (l.receive.(nonce := l.receive.nonce + 1), Ok(f.plaintext));
      assert l.got + Plaintexts(l.wire) == l.got + [f.plaintext] + Plaintexts(l.wire[1..]);
    } else if l.wire != [] {
      assert Plaintexts(l.wire) == Plaintexts(l.wire[1..]);
    }
  }

  lemma StepKeepsLockstep(c: Suite, l: Lane, a: Action)
    requires SealOpens(c) && InLockstep(c, l)
    requires a.Inject? ==> Decrypted(c, l.receive, a.ad, a.junk).1.Err?
    ensures InLockstep(c, Stepped(c, l, a))
  {
    match a
    case Deliver => DeliverKeepsLockstep(c, l);
    case Inject(_, _) =>
    case Send(ad, p) => SendKeepsLockstep(c, l, ad, p);
    case RekeySender => RekeyKeepsLockstep(c, l);
  }

  /** Every run keeps both directions in lockstep: no genuine frame is ever refused,
    however many junk frames were, and what arrives is a prefix of what was sent. */
  lemma {:induction false} RunsStayInLockstep(c: Suite, k: Link, steps: seq<(Direction, Action)>)
    requires SealOpens(c) && LinkInLockstep(c, k) && Unforged(c, k, steps)
    ensures LinkInLockstep(c, Run(c, k, steps))
    ensures forall d: Direction :: Run(c, k, steps).On(d).got <= Run(c, k, steps).On(d).sent
    ensures forall d: Direction :: Run(c, k, steps).On(d).failed == 0
    decreases |steps|
  {
    if steps == [] {
      assert forall d: Direction :: InLockstep(c, k.On(d));
    } else {
      var next := LinkStepped(c, k, steps[0].0, steps[0].1);
      StepKeepsLockstep(c, k.On(steps[0].0), steps[0].1);
      forall d: Direction
        ensures InLockstep(c, next.On(d))
      {
        assert InLockstep(c, k.On(d));
      }
      RunsStayInLockstep(c, next, steps[1..]);
    }
  }

  /** Sending is refused exactly at nonce 2^64 - 1, and a refusal changes nothing. */
  lemma SendRefusedExactlyAtExhaustion(c: Suite, l: Lane, ad: bytes, plaintext: bytes)
    requires InLockstep(c, l)
    ensures Stepped(c, l, Send(ad, plaintext)).sent == l.sent <==> l.send.nonce == MAX_NONCE
    ensures l.send.nonce == MAX_NONCE ==> Stepped(c, l, Send(ad, plaintext)) == l
  {
    SenderIsKeyed(c, l.receive, l.wire, l.send);
    assert |l.sent + [plaintext]| == |l.sent| + 1;
  }

  /** A sender's rekey moves it to the first block of what its key makes of zeros, and the
    receiver follows when the mark reaches it. */
  lemma RekeyTurnsKey(c: Suite, l: Lane)
    requires SealOpens(c) && InLockstep(c, l)
    ensures |c.seal(l.send.key, FormatNonce(MAX_NONCE), ZERO_KEY, [])| >= KEY_LEN
    ensures var next := Cipher(c.seal(l.send.key, FormatNonce(MAX_NONCE), ZERO_KEY, [])[..KEY_LEN], 0, true);
            && Stepped(c, l, RekeySender).send == next
            && (l.wire == [] ==> Stepped(c, Stepped(c, l, RekeySender), Deliver).receive == next)
  {
    SenderIsKeyed(c, l.receive, l.wire, l.send);
    assert |c.seal(l.send.key, FormatNonce(MAX_NONCE), ZERO_KEY, [])| == KEY_LEN + TAG_LEN;
    if l.wire == [] {
      assert Stepped(c, l, RekeySender).wire == [RekeyMark];
    }
  }

  function Drained(c: Suite, l: Lane, n: nat): Lane
    decreases n
  {
    if n == 0 then l else Drained(c, Stepped(c, l, Deliver), n - 1)
  }

  /** Once all that is in flight is delivered, everything sent has arrived, in order, and
    receiver and sender are in the same state. */
  lemma {:induction false} AllArrives(c: Suite, l: Lane)
    requires SealOpens(c) && InLockstep(c, l)
    ensures var d := Drained(c, l, |l.wire|);
            d.wire == [] && d.got == l.sent && d.send == l.send && d.receive == l.send && d.failed == 0
    decreases |l.wire|
  {
    if l.wire == [] {
      assert l.got + [] == l.got;
    } else {
      DeliverKeepsLockstep(c, l);
      AllArrives(c, Stepped(c, l, Deliver));
    }
  }

  /** The link between two sides that have finished the handshake. */
  function Opened(c: Suite, i: Party, r: Party): Link {
    Link(NewLane(TransportOf(c, i).0, TransportOf(c, r).1), NewLane(TransportOf(c, r).0, TransportOf(c, i).1))
  }

  /** From keys to traffic.  For all static keys, PSKs, given or generated ephemeral keys
    and payloads whose shared secrets exist, the handshake runs to its end, delivers both
    payloads, and opens a link on which no run ever refuses or alters a genuine frame. */
  lemma KeysToTraffic(c: Suite, sI: Key, sR: Key, pubI: Key, pubR: Key, psk: bytes,
                      injectI: Option<Key>, injectR: Option<Key>, entropyI: Option<Key>, entropyR: Option<Key>,
                      payloadA: bytes, payloadB: bytes, steps: seq<(Direction, Action)>)
    requires Lawful(c) && PublicFromPrivate(c, sI) == Some(pubI) && PublicFromPrivate(c, sR) == Some(pubR)
    requires psk == [] || |psk| == KEY_LEN
    requires FirstSecrets(c, Ephemeral(injectI, entropyI), sI, pubR)
    requires SecondSecrets(c, Ephemeral(injectR, entropyR),
                           PublicFromPrivate(c, Ephemeral(injectI, entropyI).value).value, pubI)
    ensures Started(c, Initiator, sI, pubR, psk).Ok? && Started(c, Responder, sR, pubI, psk).Ok?
    ensures var x := Exchanged(c, Prepared(c, Initiator, sI, pubR, psk, injectI), Prepared(c, Responder, sR, pubI, psk, injectR),
                               payloadA, payloadB, entropyI, entropyR);
            var k := Opened(c, x.gotB.party, x.b.party);
            && x.gotA.result == Ok(payloadA) && x.gotB.result == Ok(payloadB)
            && (Unforged(c, k, steps) ==>
                  forall d: Direction :: Run(c, k, steps).On(d).failed == 0 && Run(c, k, steps).On(d).got <= Run(c, k, steps).On(d).sent)
  {
    StartedInStep(c, sI, sR, pubI, pubR, psk);
    var i, r := Prepared(c, Initiator, sI, pubR, psk, injectI), Prepared(c, Responder, sR, pubI, psk, injectR);
    var x := Exchanged(c, i, r, payloadA, payloadB, entropyI, entropyR);
    HandshakeCompletes(c, i, r, payloadA, payloadB, entropyI, entropyR);
    var k := Opened(c, x.gotB.party, x.b.party);
    OpenedInLockstep(c, x.gotB.party, x.b.party);
    if Unforged(c, k, steps) {
      RunsStayInLockstep(c, k, steps);
    }
  }

  lemma OpenedInLockstep(c: Suite, i: Party, r: Party)
    requires TransportOf(c, i) == (TransportOf(c, r).1, TransportOf(c, r).0)
    ensures LinkInLockstep(c, Opened(c, i, r))
  {}
}
