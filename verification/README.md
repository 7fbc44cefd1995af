# QuickTunnel, verified

QuickTunnel is a WireGuard mesh VPN: clients join networks through a coordination
server, hold Noise handshakes, fall back to UDP relays and reconcile their peer tables
with the server's list.  This project models the parts of it that carry state, protocol
or arithmetic, in Dafny 4.11, and proves what they promise for every input and every
run.  `dafny verify dfyconfig.toml` checks all of it.

| file | models |
|---|---|
| `Words.dfy`, `Replay.dfy` | the 2048-bit replay window, down to the shifts of its 64-bit words |
| `Crypto.dfy`, `Cipher.dfy`, `Symmetric.dfy` | primitives as a parameter; cipher and symmetric state |
| `Pattern.dfy`, `Handshake.dfy`, `KeySchedule.dfy`, `Transport.dfy` | Noise IK as token lists; the unrolled handshake object; its messages and keys in the primitives alone; traffic over a link |
| `Relay.dfy`, `RelayRuns.dfy` | the relay's session table; interleavings of read loop and sweeper |
| `Allocator.dfy`, `Registry.dfy`, `RegistryEffects.dfy`, `RegistryRuns.dfy`, `RegistryRaces.dfy`, `PeerHandler.dfy` | address allocation, the peers table, its statements one by one, its handlers alone and interleaved |
| `RateLimiter.dfy` | token buckets and their garbage collection |
| `AnnounceCache.dfy`, `CacheRuns.dfy` | endpoint announcements and their index in Redis |
| `Reconciler.dfy`, `ReconcilerRuns.dfy` | the client's peer manager over the tunnel's peer table; its two goroutines interleaved |
| `Wrappers.dfy`, `NetIP.dfy`, `Sets.dfy` | options, results and bytes; the layouts of an IP address; facts for loops over sets |

## How it is modelled

- Objects with fields that the source updates in place are classes; each method's
  contract equates the new `View()` with a function of the old one, and the theorems are
  proved about those functions and lifted to runs.
- BLAKE2s, HKDF, ChaCha20-Poly1305 and X25519 are the fields of a `Suite`.  Assumed of
  them are only output lengths, that opening undoes sealing, and that Diffie-Hellman
  commutes; `Crypto.LawfulSuiteExists` shows the assumptions are consistent.  Errors of
  X25519 are modelled, not excluded.
- The handshake's specification is the Noise framework's own one (revision 34, sections
  5.3, 7.5 and 9): lists of tokens and an interpreter.  The hand-unrolled message methods
  are proved equal to it, also in the state they leave behind when they fail.
- Clocks, entropy, fresh identifiers, JSON results and the outcome of system calls are
  parameters that may take any value.
- Go's `uint64` and `uint32` are bounded integers with explicit wrap-around; a shift by n
  is n shifts by one, and OR and AND are defined bit by bit.

## Findings

Where the code does not do what its documentation or structure suggests, the model follows
the code, and the exact condition is proved.

- A peer created through `RegisterPeer` is stored with an empty status.  A scan reads it as
  approved, so `ApproveMember` returns early, while the online query compares the stored
  word.  Right after a registration the machine is listed online exactly when it already
  had a row stored as approved (`RegistryRuns.RegisteredIsListedExactlyWhen`).  A row
  with the empty status is listed by no event before a rejection
  (`RegistryRuns.RegisteredPeerIsNotListed`); reject, approve and heartbeat do list it
  exactly when the network has an address to give
  (`RegistryRuns.RejectedAndApprovedIsListed`).
- `RegisterPeer` reuses the placeholder address of a pending row.  If an approval commits
  between its list and its write, the approved row ends with 0.0.0.0
  (`RegistryRaces.InterleavingErasesAddress`).  And a device that joins a second network
  while its approval in the first is being decided ends up approved in the second with an
  address of the first (`RegistryRaces.InterleavingMisplacesAddress`).  There is no third
  way: over every interleaving, addresses are in order exactly as long as no commit does
  the one or the other (`RegistryRaces.RunsStayGoodExactlyWhen`).
- The allocator's test for a trailing 255 reads a byte of the fixed IPv4-in-IPv6 prefix and
  never skips anything (`Allocator.FourthByteIsPrefix`).  `network + 2` wraps for the last
  /31, whose network address is then handed out (`Allocator.NarrowBlocks`).
- The limiter's eviction is unobservable exactly when a bucket refills within the TTL
  (`RateLimits.GcUnobservableExactlyWhen`), and the bound on a window has the same exact
  condition (`RateLimits.WindowBoundExactlyWhen`); the three configured limiters meet it.
- Listing removes an index member after having found its entry missing; an announcement in
  between is hidden until the next one (`CacheRuns.LateRemovalHides`,
  `CacheRuns.HiddenUntilAnnounced`).  A removal is safe exactly when the member is not
  announced at that moment (`AnnounceCache.UnindexKeepsIndexed`).
- Two network ids can share an entry key exactly when one continues the other with a colon
  (`AnnounceCache.KeysCollideExactlyWhen`).  Then a listing can lay another network's
  announcement over a row (`CacheRuns.CrossedListing`); every listing is the direct overlay
  exactly when no id in use is confusable with the listed one
  (`CacheRuns.ListsFaithfullyExactlyWhen`).  Ids issued by the server have no colon.
- When the tunnel refuses a new endpoint, the manager records it all the same, and does not
  try again while the same endpoint is selected (`Reconciler.DriftIsNotRepaired`); one step
  keeps the tables in agreement exactly when there is no such refusal
  (`Reconciler.SyncOneInStep`).
- `syncPeersOnce` and `ForceRelay` run in different goroutines and release the lock between
  telling the tunnel and recording it.  So the tables can come apart with nothing refused
  (`ReconcilerRuns.InterleavingDrifts`).  The exact condition over all interleavings is that
  no refresh is refused and nobody records a peer while the other goroutine, overtaken in
  the tunnel, has yet to record it (`ReconcilerRuns.RunsAgreeExactlyWhen`).
- The Noise constructor hashes both static keys, where the standard's IK has one
  pre-message, and `Rekey` restarts the nonce; both are modelled as coded.

## Model

| member | source | states |
|---|---|---|
| `ReplayWindow.ShiftIsExact` | pkg/noise/replay.go:74-103 | the word pass followed by the carry pass is one 2048-bit left shift: bit d becomes old bit d - delta, the low delta bits become 0 |
| `ReplayWindow.Window.AdvanceLocked` | pkg/noise/replay.go:74-103 | the two descending in-place loops compute that shift, for every delta including those that clear the window |
| `ReplayWindow.Window.MarkDelta` | pkg/noise/replay.go:68-72 | sets exactly one of the 2048 bits |
| `ReplayWindow.Window.HasDelta` | pkg/noise/replay.go:62-66 | the masked word is non-zero exactly when the window has the bit at that offset |
| `ReplayWindow.Window.Accept` | pkg/noise/replay.go:24-53 | accepts exactly what a plain set of accepted counters calls fresh: nothing accepted yet, or above the maximum, or less than 2048 behind it and not in the set; the set grows by exactly the accepted counter |
| `ReplayWindow.Replay` | pkg/noise/replay.go:18-53 | over any history, the verdicts of a new window are the set's verdicts |
| `ReplayWindow.NoCounterAcceptedTwice` | pkg/noise/replay.go:23-53 | in no history is a counter accepted twice |
| `Words.BitLeft` | pkg/noise/replay.go:94-102 | the bits of a word shifted left, for every shift count |
| `Words.BitCarry` | pkg/noise/replay.go:95-101 | one word of the carry loop, bit by bit |
| `Words.MaskTest` | pkg/noise/replay.go:65 | a word AND a shifted one is non-zero exactly when the word has that bit |
| `Crypto.FormatNonceInjective` | pkg/noise/cipher_state.go:114-118 | different counters have different 12-byte nonces |
| `Crypto.FormatNonceLayout` | pkg/noise/cipher_state.go:114-118 | four zero bytes, then the counter in little-endian order |
| `Crypto.ClampIdempotent` | pkg/noise/handshake_state.go:377-381 | a clamped scalar is unchanged by clamping, so generated and injected ephemerals behave alike |
| `Crypto.ClampFields` | pkg/noise/handshake_state.go:377-381 | which bits of a scalar are cleared, set and kept |
| `Crypto.DhIgnoresClampedBits` | pkg/noise/handshake_state.go:351-375 | shared secrets and public keys depend on the clamped scalar alone |
| `CipherStates.CipherState.InitializeKey` | pkg/noise/cipher_state.go:25-48 | the new state for empty, wrong-length and 32-byte keys; the AEAD always belongs to the stored key |
| `CipherStates.CipherState.EncryptWithAd` | pkg/noise/cipher_state.go:66-78 | keyed, the AEAD's box of plaintext and associated data under key and nonce, and the nonce moves on; unkeyed, the plaintext; refused exactly at exhaustion; and the one Seal call made |
| `CipherStates.CipherState.DecryptWithAd` | pkg/noise/cipher_state.go:81-96 | the same for opening; refused exactly at exhaustion or when the box does not open, and then the state is as it was |
| `CipherStates.CipherState.Rekey` | pkg/noise/cipher_state.go:99-112 | the next key is the first 32 bytes of the zeros sealed by the old key under nonce 2^64 - 1, the nonce restarts at 0, and that Seal is the only one |
| `CipherStates.NonceNeverReused` | pkg/noise/cipher_state.go:66-118 | over every run of encrypts, decrypts and rekeys from any nonce, among the Seal calls made no 12-byte nonce occurs twice in one key epoch, and 2^64 - 1 only in the rekey that ends the epoch |
| `CipherStates.CipherState.PerformAll` | pkg/noise/cipher_state.go:66-112 | the same of the object: the log, extended wherever the AEAD seals, never repeats a nonce within an epoch |
| `CipherStates.EpochHasOneKey` | pkg/noise/cipher_state.go:99-112 | over every run, all seals of an epoch are under one key, which is that block of the last epoch's key |
| `CipherStates.NoPairRepeats` | pkg/noise/cipher_state.go:66-118 | over every run whose epoch keys differ, no key is used twice with one nonce |
| `SymmetricStates.HkdfMaterial` | pkg/noise/symmetric_state.go:142-157 | the loop yields exactly the requested blocks of the HKDF stream, or an error for a count it cannot serve |
| `SymmetricStates.SymmetricState.MixKey` | pkg/noise/symmetric_state.go:50-61 | chaining key, cipher key and nonce afterwards |
| `SymmetricStates.SymmetricState.MixKeyAndHash` | pkg/noise/symmetric_state.go:64-76 | chaining key, transcript hash, cipher key and nonce afterwards |
| `SymmetricStates.SymmetricState.Split` | pkg/noise/symmetric_state.go:99-116 | two new ciphers from the chaining key alone |
| `SymmetricStates.EncryptedIsDecrypted` | pkg/noise/symmetric_state.go:79-96 | a reader in the writer's state recovers the plaintext, reaches the writer's next state, and the ciphertext has the length the reader cuts off |
| `SymmetricStates.RejectedChangesNothing` | pkg/noise/symmetric_state.go:89-96 | a rejected ciphertext leaves nonce, key, chaining key and transcript hash unchanged |
| `IKPattern.DhAgrees` | pkg/noise/handshake_state.go:118-141 | for each of the four Diffie-Hellman tokens, both roles compute the same secret or both fail |
| `IKPattern.TokenAgrees` | pkg/noise/handshake_state.go:97-214 | what writing a token emits, reading it consumes exactly, and the two roles stay in step |
| `IKPattern.MessageAgrees` | pkg/noise/handshake_state.go:97-320 | any playable message pattern delivers its payload unchanged and leaves equal hash, chaining key, cipher key and nonce |
| `IKPattern.HonestHandshake` | pkg/noise/handshake_state.go:97-333 | for all keys, payloads, entropy and optional PSK: every message written is read, both payloads arrive, the states agree after each message, and each side's send cipher is the other's receive cipher |
| `IKPattern.HandshakeCompletes` | pkg/noise/handshake_state.go:97-333 | with given or generated ephemerals, each message gets through exactly when the shared secrets it needs exist; after both, all of the above |
| `Handshakes.NewHandshakeState` | pkg/noise/handshake_state.go:38-71 | an object in the interpreter's starting state, or the error of the failed check |
| `IKPattern.StartedInStep` | pkg/noise/handshake_state.go:38-71 | two constructors given each other's public keys succeed together, exactly for an empty or 32-byte PSK, with equal transcripts |
| `IKPattern.WriteASucceeds` | pkg/noise/handshake_state.go:97-153 | an initiator can write the first message exactly when it has or can draw an ephemeral and its public keys and two shared secrets exist |
| `IKPattern.WriteBSucceeds` | pkg/noise/handshake_state.go:217-270 | the same for the second message |
| `Handshakes.HandshakeState.WriteMessageA` | pkg/noise/handshake_state.go:97-153 | result and new state equal the token interpreter's, also on every error path |
| `Handshakes.HandshakeState.ReadMessageA` | pkg/noise/handshake_state.go:156-214 | the same, including truncated messages and a mismatched static key |
| `Handshakes.HandshakeState.WriteMessageB` | pkg/noise/handshake_state.go:217-270 | the same, with the PSK token |
| `Handshakes.HandshakeState.ReadMessageB` | pkg/noise/handshake_state.go:273-320 | the same |
| `Handshakes.HandshakeState.Transport` | pkg/noise/handshake_state.go:323-333 | send and receive ciphers by role |
| `KeySchedule.StartSchedule` | pkg/noise/handshake_state.go:38-71 | transcript and chaining key of a new side of either role, in the primitives |
| `KeySchedule.WriteASchedule` | pkg/noise/handshake_state.go:97-153 | message A byte for byte, and the keys and hash it leaves, by hash, HKDF blocks, es, ss and sealed boxes |
| `KeySchedule.ReadASchedule` | pkg/noise/handshake_state.go:156-214 | exactly which messages a responder accepts, the expected static key included, what it returns and the state it reaches |
| `KeySchedule.WriteBSchedule` | pkg/noise/handshake_state.go:217-270 | the same for message B, by ee, se and the three PSK blocks |
| `KeySchedule.ReadBSchedule` | pkg/noise/handshake_state.go:273-320 | exactly which messages an initiator accepts |
| `KeySchedule.TransportSchedule` | pkg/noise/handshake_state.go:323-333 | the two transport keys are the two blocks of the final chaining key, crosswise by role, from nonce 0 |
| `KeySchedule.HandshakeSchedule` | pkg/noise/handshake_state.go:97-333 | both messages and both final states of a whole handshake, by the four shared secrets and the PSK |
| `KeySchedule.OutOfTurn` | pkg/noise/handshake_state.go:98-100 | calls in the wrong role or before their keys are there are refused without a trace |
| `Handshakes.RunHandshake` | pkg/noise/handshake_state.go:38-320 | two objects run end to end, ephemerals given or generated: each message gets through exactly when the shared secrets it needs exist, then with its payload, and both end with equal hash, chaining key, cipher key and nonce |
| `TransportRuns.RunsStayInLockstep` | pkg/noise/cipher_state.go:66-112 | over any interleaving of sends, deliveries, rekeys and rejected junk in both directions, no genuine frame is refused and what arrives is a prefix of what was sent |
| `TransportRuns.SendRefusedExactlyAtExhaustion` | pkg/noise/cipher_state.go:70-72 | a send is refused exactly at nonce 2^64 - 1, and changes nothing |
| `TransportRuns.RekeyTurnsKey` | pkg/noise/cipher_state.go:99-112 | a rekey moves the sender to its next key, and the receiver when the mark arrives |
| `TransportRuns.AllArrives` | pkg/noise/cipher_state.go:66-96 | once what is in flight is delivered, all that was sent has arrived in order and both ends are in one state |
| `TransportRuns.KeysToTraffic` | pkg/noise/handshake_state.go:38-333 | from keys to traffic: the handshake of two new states delivers both payloads, and on the link it opens no run ever refuses or alters a genuine frame |
| `RelayTable.RelayServer.CreateSession` | relay/internal/relay_server.go:195-235 | joins the token's session or creates one; maps stay inverse, gauge counts sessions |
| `RelayTable.RelayServer.ForwardPacket` | relay/internal/relay_server.go:237-241 | restarts the idle clock of the session it was handed, in the table or not, and names the other peer |
| `RelayTable.RelayServer.RemoveSession` | relay/internal/relay_server.go:296-309 | removes the session and its token, if present |
| `RelayTable.RelayServer.RemoveStaleSessions` | relay/internal/relay_server.go:277-294 | removes exactly the sessions idle for more than five minutes, with their tokens, and returns their number |
| `RelayTable.DeleteSelected` | relay/internal/relay_server.go:281-289 | the deleting loop, for any order of iteration |
| `RelayTable.BuildPacket` | relay/internal/relay_server.go:341-344 | the buffer filled in place is the framed packet |
| `RelayTable.FramingRoundTrip` | relay/internal/relay_server.go:136-143 | parsing a framed packet recovers type, session ID and payload |
| `RelayTable.DestinationInvolution` | relay/internal/relay_server.go:367-383 | the destination rule is an involution: a reply goes back to where the data came from |
| `RelayTable.SameAddrExactlyWhen` | relay/internal/relay_server.go:378-383 | equal ports, and equal bytes or the same IPv4 address in two layouts |
| `RelayRuns.RunsAreSound` | relay/internal/relay_server.go:136-309 | over every interleaving of packets and sweeps: the maps are inverse, the gauge is the session count, and everything forwarded was a DATA packet that went byte for byte from one of its session's two peers to the other, even if the session was swept after the lookup |
| `RelayRuns.RunsForwardOnce` | relay/internal/relay_server.go:167-172 | in every run, a packet is forwarded at most as often as it was received from that sender |
| `RelayRuns.RunsEmit` | relay/internal/relay_server.go:145-189 | in every run each step sends exactly what it has to: data of a peer to the other peer and nobody else's, a pong per ping, the answer to a connect after a notice to both peers |
| `RelayRuns.LookupHolds` | relay/internal/relay_server.go:167-189 | a packet that names a session in the table is taken up with that session |
| `RelayRuns.DataIsDelivered` | relay/internal/relay_server.go:167-250 | in every run, a data packet from one peer of a pair is forwarded once and unchanged to the other, however many sweeps intervene, and from anybody else not at all |
| `RelayRuns.PeersAreFirstToConnect` | relay/internal/relay_server.go:199-212 | in every run, a session's peers are the first two distinct senders of the connects that carried its token while it was in the table |
| `RelayRuns.ConnectReachesOne` | relay/internal/relay_server.go:195-235 | every accepted connect reaches exactly one session, the one in the table with its token |
| `RelayRuns.SessionAfter` | relay/internal/relay_server.go:136-326 | a session object after any step: joined by a connect with its token, touched by data or ping, otherwise as it was |
| `RelayRuns.PeersNeverChange` | relay/internal/relay_server.go:199-212 | once set, a session's id, token and peers never change |
| `RelayRuns.PeersAreDistinct` | relay/internal/relay_server.go:204-208 | in every reachable state a session's two peers are different addresses |
| `RelayRuns.LeavesExactlyWhenEvicted` | relay/internal/relay_server.go:277-309 | a session leaves the table exactly by a disconnect naming it or a sweep that finds it stale |
| `RelayRuns.SweptExactlyWhenIdle` | relay/internal/relay_server.go:277-294 | in every run, a sweep removes a session exactly when its latest connect, data or ping is more than five minutes old |
| `RelayRuns.ActiveSessionsSurvive` | relay/internal/relay_server.go:277-294 | with a clock that does not run backwards, a session with traffic in the five minutes before every sweep, and named by no disconnect, survives any number of sweeps |
| `RelayRuns.ClockShowsLatestActivity` | relay/internal/relay_server.go:322-326 | in every run the idle clock of a session shows the time of its latest connect, data or ping |
| `Allocator.AllocateIP` | pkg/netutil/ip.go:10-50 | the two loops compute `Allocate`, for every CIDR and every list of used addresses, including unparsable ones |
| `Allocator.CollectUsed` | pkg/netutil/ip.go:28-35 | the set of used IPv4 addresses, whatever else is in the list |
| `Allocator.Admit` | pkg/netutil/ip.go:37-47 | the loop's tests accept a candidate exactly when it is unused and in the network |
| `Allocator.AllocatesLeastFree` | pkg/netutil/ip.go:23-49 | for prefixes 1 to 30: the smallest unused address of [network + 2, broadcast - 1], and none exactly when all are used |
| `Allocator.NarrowBlocks` | pkg/netutil/ip.go:23-49 | for /31 and /32: nothing, except the wrapped case |
| `Allocator.WideBlock` | pkg/netutil/ip.go:23-27 | for prefixes 1 to 30 no uint32 step wraps |
| `Allocator.MaskBits` | pkg/netutil/ip.go:23-24 | network and broadcast are the bitwise operations on the address |
| `Allocator.HostRangeIsContained` | pkg/netutil/ip.go:44-46 | an address is in the network exactly when it lies between network and broadcast address |
| `Allocator.RoundTripFromUint32` | pkg/netutil/ip.go:174-184 | converting to net.IP and back is the identity |
| `Allocator.RoundTripFromIp` | pkg/netutil/ip.go:174-184 | and the other way, up to the 16-byte layout |
| `Allocator.FourthByteIsPrefix` | pkg/netutil/ip.go:37-40 | the byte tested for 255 is always 0 |
| `Registry.CommitKeepsUnique` | server/internal/database/queries/peers.go:54-156 | every statement keeps machine ids and real addresses unique, whatever was decided before it ran |
| `RegistryEffects.RegisterUpserts` | server/internal/database/queries/peers.go:54-75 | a known machine keeps id and status and takes network, key and address; a new one takes the given status; nothing happens if another row of the network has the address |
| `RegistryEffects.PendingAdds` | server/internal/database/queries/peers.go:119-133 | a known machine gets its key changed and nothing else; a new one a pending row without address |
| `RegistryEffects.ApproveAssigns` | server/internal/database/queries/peers.go:246-258 | the row becomes approved with the address, offline; nothing happens if the address is taken |
| `RegistryEffects.RejectMarks` | server/internal/database/queries/peers.go:261-272 | the status of that row alone changes |
| `RegistryEffects.HeartbeatMarks` | server/internal/database/queries/peers.go:274-301 | that row alone comes online |
| `RegistryEffects.OfflineMarks` | server/internal/database/queries/peers.go:526-553 | exactly the given rows go offline |
| `RegistryEffects.DeleteRemoves` | server/internal/database/queries/peers.go:304-315 | the row is gone and every other one is as it was |
| `RegistryEffects.DeleteMachineRemoves` | server/internal/database/queries/peers.go:317-336 | exactly the rows of that machine in that network are gone |
| `RegistryEffects.OnlineListLoses` | server/internal/database/queries/peers.go:338-345 | kicked, rejected and offline peers leave the online list, and nobody else |
| `RegistryEffects.OnlineListGains` | server/internal/database/queries/peers.go:338-345 | a heartbeat lists its peer exactly if it is stored as approved |
| `RegistryEffects.KickFreesAddress` | server/internal/api/member_handler.go:251 | after a kick no row of the network has the address |
| `RegistryEffects.KickedStaysGone` | server/internal/api/member_handler.go:251 | over histories, a kicked peer is in no table and no online list until its id is created again |
| `RegistryEffects.UnregisteredStaysGone` | server/internal/database/queries/peers.go:317-336 | over histories, an unregistered machine is absent from the network until it registers or joins there |
| `RegistryEffects.NothingToDo` | server/internal/api/join_handler.go:111-131 | joining again, or approving what is approved, missing or elsewhere, changes nothing |
| `Registry.RunsKeepUnique` | server/internal/database/migrations/008_pending_virtual_ip_uniqueness.sql:12-15 | with handlers interleaved at check, list, decide and write, every committed table has distinct real addresses per network |
| `RegistryRuns.DecisionAvoidsOthers` | server/internal/api/peer_handler.go:182-212 | what a handler chooses from the current table, the placeholder included, is held by no other row of the network |
| `RegistryRuns.RegisterNeedsNoRetry` | server/internal/api/peer_handler.go:170-228 | without a concurrent writer the first write succeeds and changes the machine's row alone, to an address no other row of the network holds |
| `RegistryRuns.RegisteringAgainKeepsAddress` | server/internal/api/peer_handler.go:182-204 | a machine that registers again in its network keeps its address |
| `RegistryRuns.HistoriesStayGood` | server/internal/database/queries/peers.go:245-272 | from an empty registry, with atomic handlers, every stored approved row has a host address of its network |
| `RegistryRuns.OnlineListIsRoutable` | server/internal/database/queries/peers.go:338-345 | peers listed together have distinct host addresses, and none is pending or rejected |
| `RegistryRuns.CommitKeepsApprovedReal` | server/internal/database/queries/peers.go:60-74 | whatever the table, a statement leaves every approved row a real address exactly when it is not a placeholder register of an approved machine |
| `RegistryRuns.CommitKeepsGood` | server/internal/database/queries/peers.go:245-258 | and it leaves all rows addresses of their networks exactly when, moreover, it is not an approval with an address foreign to the row's network |
| `RegistryRaces.RunsStayRealExactlyWhen` | server/internal/api/peer_handler.go:170-228 | with handlers interleaved, approved rows have real addresses all along if and only if no commit so far erased one |
| `RegistryRaces.RunsStayGoodExactlyWhen` | server/internal/api/member_handler.go:142-162 | with handlers interleaved, rows have addresses of their networks all along if and only if no commit so far erased or misplaced an approved one |
| `RegistryRaces.InterleavingErasesAddress` | server/internal/api/peer_handler.go:182-225 | in every network and for every key a device joined with, an interleaving that leaves the approved row with the placeholder |
| `RegistryRaces.InterleavingMisplacesAddress` | server/internal/api/join_handler.go:142-175 | for any two networks and every key, an interleaving that leaves the device approved, and then listed, in one with an address of the other |
| `RegistryRuns.DecisionAssignsHosts` | server/internal/api/join_handler.go:142-175 | whatever snapshot a handler saw, it assigns a host address, or (RegisterPeer only) the placeholder |
| `RegistryRuns.BlankStaysBlank` | server/internal/api/member_handler.go:136-140 | no handler but reject changes a blank stored status |
| `RegistryRuns.RegisteredIsListedExactlyWhen` | server/internal/api/peer_handler.go:214-225 | right after an uninterrupted registration the machine is listed online if and only if it already had a row stored as approved |
| `RegistryRuns.RegisteredPeerIsNotListed` | server/internal/database/queries/peers.go:338-345 | over whole histories, a blank-status peer is not listed online unless it is first rejected |
| `RegistryRuns.RejectedAndApprovedIsListed` | server/internal/api/member_handler.go:136-162 | rejecting, approving and a heartbeat list a peer online if and only if the network has an address to give |
| `PeerHandler.PeerStore.RegisterPeer` | server/internal/database/queries/peers.go:42-102 | the upsert, and exactly why it may be refused |
| `PeerHandler.PeerStore.ListNetworkPeers` | server/internal/database/queries/peers.go:190-215 | lists exactly the network's rows |
| `PeerHandler.OwnAddress` | server/internal/api/peer_handler.go:182-204 | the two scans: the machine's address unless another machine has it too |
| `PeerHandler.Register` | server/internal/api/peer_handler.go:167-264 | the retry loop ends at its first attempt with the allocator's choice written, which no other machine of the network holds, or with no address left and nothing changed |
| `RateLimits.RateLimiter.Allow` | server/internal/api/middleware/ratelimit.go:39-64 | answer and new state of a call, eviction included |
| `RateLimits.RateLimiter.Gc` | server/internal/api/middleware/ratelimit.go:66-74 | evicts exactly the buckets idle for more than the TTL |
| `RateLimits.CallConserves` | server/internal/api/middleware/ratelimit.go:55-63 | what a call spends and leaves is at most what was there plus what flowed in |
| `RateLimits.CallTakes` | server/internal/api/middleware/ratelimit.go:51-63 | a call is allowed if and only if a whole token is available, and takes exactly one; refused, it takes none |
| `RateLimits.CallIsExact` | server/internal/api/middleware/ratelimit.go:51-63 | what any key has at any later time, by what it had at the call |
| `RateLimits.RefusedCallsDoNotCount` | server/internal/api/middleware/ratelimit.go:56-61 | leaving a refused call out of any history changes no other answer |
| `RateLimits.SpacedCallIsAllowed` | server/internal/api/middleware/ratelimit.go:39-74 | with eviction running, a call at least 1/rate after every earlier call of its key is allowed |
| `RateLimits.WindowBoundWithGC` | server/internal/api/middleware/ratelimit.go:39-74 | in any window of any call history a key is allowed at most capacity + rate * T requests, T counted from the first decision in it, eviction running |
| `RateLimits.WindowBoundExactlyWhen` | server/internal/api/middleware/ratelimit.go:39-74 | that bound holds of all windows of all call histories if and only if capacity <= rate * TTL |
| `RateLimits.GcUnobservable` | server/internal/api/middleware/ratelimit.go:44-74 | with eviction, every call is answered as without it |
| `RateLimits.GcUnobservableExactlyWhen` | server/internal/api/middleware/ratelimit.go:44-74 | that holds for all call histories if and only if capacity <= rate * TTL |
| `RateLimits.RouterLimitersRefill` | server/internal/api/router.go:27-33 | the configured limiters meet the condition |
| `AnnounceCache.Coordinator.Announce` | server/internal/api/coord_handler.go:72-107 | a complete announcement: entry for 60 s and index membership for 70 s, in one transaction; any other is refused |
| `AnnounceCache.Coordinator.ListPeers` | server/internal/api/coord_handler.go:145-185 | the entries of all index members laid over the rows they name, in some order; the direct overlay of all live announcements of the network if no live id is confusable with it; exactly the dead members leave the index |
| `AnnounceCache.Merge` | server/internal/api/member_tunnel_handler.go:118-148 | the merge loop, for any order of members, both overlay rules and entries that name any peer |
| `AnnounceCache.UnindexKeepsIndexed` | server/internal/api/coord_handler.go:165-168 | removing members keeps every live announcement indexed if and only if none of them is announced |
| `AnnounceCache.OfflineKeepsIndexed` | server/internal/api/member_tunnel_handler.go:230-240 | going offline hides nobody else |
| `AnnounceCache.OfflineRemoves` | server/internal/api/member_tunnel_handler.go:230-240 | going offline removes the peer's own entry and membership and nothing else |
| `AnnounceCache.ListingShows` | server/internal/api/member_tunnel_handler.go:136-143 | a listing shows endpoint and local endpoints of a live announcement by the handler's rule, and the bare row without one |
| `AnnounceCache.KeysCollideExactlyWhen` | server/internal/api/coord_handler.go:100 | two network ids can yield one entry key, for peers with ids that are not empty, if and only if one is the other followed by a colon and more |
| `AnnounceCache.EntryKeySeparates` | server/internal/api/coord_handler.go:163-164 | otherwise an entry key determines network and peer |
| `AnnounceCache.KeyspacesDisjoint` | server/internal/api/coord_handler.go:100-101 | entry keys and index keys never coincide |
| `CacheRuns.RunsStayIndexed` | server/internal/api/coord_handler.go:100-107 | in every timed run each live announcement is in a live index |
| `CacheRuns.ListingIsDirectOverlay` | server/internal/api/coord_handler.go:145-185 | in every run that announces for no confusable network id, listing through the index equals direct overlay |
| `CacheRuns.AnnouncementShowsForSixtySeconds` | server/internal/api/coord_handler.go:103-180 | in every run, listings show a peer's announcement for exactly 60 s unless it announces anew or goes offline |
| `CacheRuns.OfflineShowsNothing` | server/internal/api/member_tunnel_handler.go:230-240 | in every run, listings show the bare row of a peer that went offline until it announces again |
| `CacheRuns.ListsFaithfullyExactlyWhen` | server/internal/api/coord_handler.go:100-185 | for any set of network ids: in all runs over them every listing of one of them is its direct overlay, if and only if none of them is confusable with it |
| `CacheRuns.LateRemovalHides` | server/internal/api/coord_handler.go:164-167 | an announcement between lookup and removal is hidden, whatever the cache |
| `CacheRuns.HiddenUntilAnnounced` | server/internal/api/coord_handler.go:103-106 | over every run, a peer missing from the index stays so exactly until its own next announcement |
| `CacheRuns.CrossedListing` | server/internal/api/coord_handler.go:163-178 | for any two networks with a common key, a run after which listing the one serves the other's endpoint and differs from the direct overlay |
| `Reconciler.PeerManager.SyncPeersOnce` | client/internal/peer/manager.go:139-211 | a round run alone: whatever sequence of operations fails, tracked peers come from the fetched list, exclude the local peer and are in the tunnel; all connects succeeding, they are the list; no update refused, endpoints agree |
| `Reconciler.RoundConverges` | client/internal/peer/manager.go:139-211 | a round in which nothing fails tracks exactly the listed peers, each at its selected endpoint in both tables, and leaves nothing of the others in the tunnel |
| `ReconcilerRuns.RunsTrack` | client/internal/peer/manager.go:139-211 | over every interleaving of the two goroutines' critical sections: each tracked peer's key is in the tunnel unless that peer is just being dropped, the local peer is never tracked, and between rounds tracked peers are in the latest list |
| `ReconcilerRuns.StepKeepsAgreedExactlyWhen` | client/internal/peer/manager.go:177-187 | a critical section keeps the tables in agreement, but for what is about to be recorded, if and only if it is neither a refused refresh nor a record that leaves an overtaken one behind |
| `ReconcilerRuns.RunsAgreeExactlyWhen` | client/internal/peer/manager.go:513-535 | over every interleaving, the tables have agreed all along if and only if no such step occurred |
| `ReconcilerRuns.RunsStayInStep` | client/internal/peer/manager.go:177-187 | then every tracked peer of which nothing is about to be recorded has the same endpoint in both tables |
| `ReconcilerRuns.InterleavingDrifts` | client/internal/peer/manager.go:524-529 | for every peer, an interleaving in which nothing is refused and after which the tables disagree and the next list does not repair it |
| `ReconcilerRuns.EntryIsSyncedOne` | client/internal/peer/manager.go:150-195 | uninterrupted, the critical sections of a listed peer amount to the manager's method |
| `ReconcilerRuns.ProbeIsForced` | client/internal/peer/manager.go:513-535 | the same of ForceRelay |
| `ReconcilerRuns.DropIsDisconnected` | client/internal/peer/manager.go:487-501 | the same of disconnectPeer |
| `Reconciler.PeerManager.SyncOne` | client/internal/peer/manager.go:150-195 | connect or refresh of one listed peer |
| `Reconciler.PeerManager.ConnectToPeer` | client/internal/peer/manager.go:338-390 | both tables afterwards, for every way it can fail |
| `Reconciler.PeerManager.AddPeerWithFallback` | client/internal/peer/manager.go:392-431 | the first candidate the tunnel accepts, tried in order |
| `Reconciler.PeerManager.DisconnectPeer` | client/internal/peer/manager.go:487-501 | the peer is forgotten even when the tunnel keeps it |
| `Reconciler.PeerManager.ForceRelay` | client/internal/peer/manager.go:513-535 | succeeds exactly when the tunnel took the relay endpoint, and only then records it |
| `Reconciler.WGTunnel.AddPeer` | client/internal/tunnel/wireguard.go:151-193 | adds or leaves the table as it was |
| `Reconciler.WGTunnel.RemovePeer` | client/internal/tunnel/wireguard.go:195-226 | removes or leaves the table as it was |
| `Reconciler.WGTunnel.UpdatePeerEndpoint` | client/internal/tunnel/wireguard.go:228-257 | updates or leaves the table as it was |
| `Reconciler.SyncAllTracks` | client/internal/peer/manager.go:149-195 | over a whole list, every tracked peer's key stays in the tunnel |
| `Reconciler.ConnectPrefers` | client/internal/peer/manager.go:338-431 | the selected endpoint if the tunnel takes it, else the public one, else the LAN one |
| `Reconciler.ConnectInstalls` | client/internal/peer/manager.go:361-388 | the peer is recorded and installed for its own address, as a /32 unless it has a prefix; a failed connect changes nothing |
| `Reconciler.RefreshMoves` | client/internal/peer/manager.go:177-187 | the selected endpoint is recorded, and the tunnel has it if it took it; nothing else changes |
| `Reconciler.DisconnectDrops` | client/internal/peer/manager.go:487-501 | the peer is forgotten and the tunnel drops its key exactly if it lets it go |
| `Reconciler.ForceMoves` | client/internal/peer/manager.go:513-535 | both tables move to the relay, or neither |
| `Reconciler.SyncOneInStep` | client/internal/peer/manager.go:177-187 | a step keeps both tables' endpoints equal if and only if it is not a refused change |
| `Reconciler.DriftIsNotRepaired` | client/internal/peer/manager.go:177-187 | after a refused change the tables disagree, and offering the same endpoint again never repairs it |
| `Reconciler.SharedKeyLosesPeer` | client/internal/peer/manager.go:487-501 | two ids with one key: dropping one takes the other's tunnel peer, so the key map must be injective |

## Left out

- Internals of the cryptographic primitives, and any claim of secrecy or authenticity.
- Mutexes: methods that hold a lock throughout run as atomic steps; where the relay, the registry handlers and the reconciler release it in between, their runs take separate steps. The methods of `PeerManager` are proved as run alone.
- Starting and stopping the tunnel: whether it is started is part of the environment each step of a round meets.
- Sockets, STUN, hole punching, TUN devices, routes and `wg` commands: only their success or failure is a parameter; the relay's log records writes as attempted.
- Text parsing: CIDRs, addresses, endpoints, JSON and trimming arrive parsed; error texts are an enumeration.
- Join, approve, reject and kick as imperative handlers: they are value-level transitions (`Registry.Decision`, `Registry.Committed`), so their loops over a snapshot appear as a set of addresses; a join's key has the 12 bytes its machine id needs, for the source panics on a shorter one.
- Relay session objects are positions in an arena instead of heap references, so that a swept session stays observable.
- Network creation, deactivation and CIDR changes: networks are fixed, active and known.
- Registry columns that no decision reads (names, versions, counters, tokens), and member-token uniqueness.
- Allocator.AllocatesLeastFree: does not cover prefixes 31 and 32, because `Allocator.NarrowBlocks` states what happens there; prefix 0 yields nothing.
- Floating-point rounding in the limiter: floats and times are reals.
- CacheRuns.RunsStayIndexed: handlers are atomic, because at command granularity it is false (`CacheRuns.LateRemovalHides`).
- Sorting and the excluded peer of a listing, HTTP routing, authentication and ownership checks.
- How `AttemptDirect` finds its endpoint (its look-up, update and record are the monitor's steps), the manager's and the tunnel's `Stop`, endpoint selection by NAT and LAN, metrics tickers, agent back-off, dashboard, installers and configuration: easy or outside the core.
