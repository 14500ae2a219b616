# vibe-vpn: a verified model

A Dafny 4.11 model of the core of vibe-vpn, a Noise XK tunnel: the anti-replay bitmap, frame
codec, traffic shaping, stream framing, AEAD sessions, the in-session rekey protocol between
client and server, the server's session books and address pool, and its handshake rate limiter.
`dafny verify dfyconfig.toml` checks everything.

## How it is built

Code that updates things in place is modelled by classes and methods (`ReplayWindow`, `Keys`,
`Conn`, `ClientSession`, `ServerSession`, `Manager`, `IpPool`, `RateTable`), each proved equal to a
function on values; the theorems about whole runs are lemmas about those functions. What comes in and
goes out is stated in its own bytes (`WellFormed`, `Source`, `Quad`), not by the functions that parse it. So the rekey
theorems of `Fifo`, `Tunnel`, `Lossy`, `Recovery` and `Leaving` are about the same `Endpoints` functions that the
methods of `ClientSession` and `ServerSession` are proved to compute, down to the words of the bitmap.

| file | part |
|---|---|
| Words, Replay, ReplayWindow | uint64 words bit by bit; the window's meaning over runs; the bitmap |
| Bytes, Packet | big-endian integers; IPv4 headers |
| Framing, Stream | inner plaintext and shaping; length-prefixed frames |
| Sizes | sizes of sets and maps |
| Noise, Keys | the ideal handshake; one key epoch, and an adversary between seal and open |
| Endpoints | what client and server do with one datagram or trigger |
| Door, Connect | rate limit and cookies before the first handshake; the handshake as a whole |
| Fifo, Lossy | rekeying and closing over lossless channels; over an adversarial network |
| Tunnel | packets, keepalives and rekeys end to end over lossless channels |
| Recovery, Leaving | when a server can catch up after a lost message; when a rekeying client can go on |
| ClientSession, ServerSession | the handlers in place |
| Pool, Registry, Manager | addresses; the manager's books over runs; the manager in place |
| IdSpace, IdRuns | how long session ids stay unique, and what byID is worth until then; runs that reach the bounds |
| Limiter, Gate | handshake rate limit; what must happen before a packet reaches the TUN |

Idealisations. An AEAD box opens exactly under the key that sealed it (`Wire` is a free
constructor). Noise is any record of functions in which reading succeeds exactly on the matching
message of the matching handshake (`Ideal`); theorems hold for every such record, and
`IdealExists` gives one. Randomness, the outcome of Send, timers and the clock are inputs of a step.

Where the code and its documentation differ, the model follows the code:

- docs/protocol.md (section 6) says both sides swap keys atomically, and section 9 asks that an aborted rekey leave
  both on the same keys. They need not: `LostThirdCutsOff` and `CatchUpIffExpecting`.
- docs/protocol.md (IV1) says the wire sequence never wraps. The guard runs only on the client's keepalive tick and
  the server has none, so theorems that need it bound the seals per key (`Roomy`, `|ms| <= 2^32`), and
  `AcceptedUntilWrap` says that 2^32 is exactly where frames start to be lost.
- The comment on `ReplayWindow` says a set bit is never accepted again, but a number that moves the window by its
  whole size is not recorded: `ReplayableIffJump`.
- Seal slices a pooled buffer of 65507 bytes, but stream frames may hold 65535: `OverrunsIff` says which datagrams
  make the server seal past its end, and `LongKeepaliveOverruns` gives one.
- Between taking its id and inserting its session a HandleTransport call holds no lock, so the id can come round
  again and a live session be lost from byID: `LongRunLoses`, `TurnRunLoses`. `ExactIffFew` and `ExactIffPrompt` say
  exactly how many admissions in all, and how many that overtake one call, keep byID exact.
- The comment on `LookupIP` says it returns the session that owns an address. A bumped session that outlives its
  successor still holds that address when another client is given it: `BumpedSharesAddress`. `Reply` then sends by
  id, which may be another session's by then: `ReplyGoesAstray`.
- A rekeying client has no timer of its own: `FailedThirdSilences`, `SilencedRun`, `EscapesIffAnswerable`.
- Two buckets of 20 suggest 40 handshakes in ten seconds; 39 is the exact maximum: `AtMost39Answered`, `Attained`.

## Model

| member | source | states |
|---|---|---|
| ReplayWindows.ShiftUp | internal/protocol/replay.go:69-89 | in place, for every bitmap length and n: the new bit p is the old bit p-n, and 0 for p < n |
| ReplayWindows.ShiftedBit | internal/protocol/replay.go:76-88 | each stored word, made of one or two old words, has exactly the shifted bits |
| ReplayWindows.ReplayWindow.constructor | internal/protocol/replay.go:16-22 | the size is rounded to words, the window is empty |
| ReplayWindows.ReplayWindow.Check | internal/protocol/replay.go:25-37 | the bitmap test decides the abstract check, for every uint64 |
| ReplayWindows.ReplayWindow.Add | internal/protocol/replay.go:40-64 | the bitmap update is the abstract one on (highest, set of marked distances), for every uint64 |
| ReplaySpec.RunRepresents | internal/protocol/replay.go:25-64 | after any run the marks are exactly the recorded numbers within `size` of the highest accepted |
| ReplaySpec.CountExact | internal/protocol/replay.go:25-64 | each number is accepted exactly once if recorded, plus once if it jumped |
| ReplaySpec.AcceptedAtMostTwice | internal/protocol/replay.go:25-64 | in every run a number is accepted at most twice, and at most once if it made no jump |
| ReplaySpec.ReplayableIffJump | internal/protocol/replay.go:53-59 | an accepted number can be accepted again in some continuation if and only if its slide was `size` or more |
| ReplaySpec.RejectionJustified | internal/protocol/replay.go:25-37 | a refused number was accepted before or lies `size` or more below the highest |
| ReplaySpec.NewAcceptedIff | internal/protocol/replay.go:25-37 | after any run, a number that never came is accepted exactly above the lower edge of the window |
| ReplaySpec.MarkJustified | internal/protocol/replay.go:46-63 | a set bit d means that high-d was accepted |
| ReplaySpec.RefusedStays | internal/protocol/replay.go:25-64 | what the window refuses it goes on refusing |
| ReplaySpec.AcceptedUntilWrap | internal/session/session.go:83-89 | with in-order delivery exactly the first 2^32 frames of a key are accepted, and every later one is refused |
| Framing.ParseSealed | internal/framing/framing.go:59-121 | parsing a sealed inner plaintext gives back tag, type, sequence (mod 2^32) and payload (mod its 16-bit length), whatever the padding |
| Framing.PayloadSurvivesIff | internal/framing/framing.go:68-69 | the payload survives if and only if it is shorter than 2^16 |
| Framing.ParsedIsInner | internal/framing/framing.go:107-121 | whatever parses is the layout of its frame with the rest as padding |
| Framing.InnerBytes | internal/framing/framing.go:63-70 | tag in bytes 0-3, type in 4, number in 5-8 and payload length in 9-10, most significant byte first, then payload, then padding |
| Framing.ParseInnerExact | internal/framing/framing.go:107-121 | what parses is exactly 11 bytes of header with the payload length it announces behind it; each field comes from those bytes |
| Framing.FillInner | internal/framing/framing.go:59-70 | the in-place writes leave exactly that layout in the pooled buffer |
| Framing.PadWireLen | internal/framing/framing.go:148-157 | "pad" gives max(natural size, min(PadTo, MaxWire)) |
| Framing.BucketWireLen | internal/framing/framing.go:158-166 | "bucket" gives the next multiple unless that passes MaxWire |
| Framing.ClampedModes | internal/framing/framing.go:146-183 | with inner length up to MaxInner, the deterministic modes stay within the buffer |
| Framing.PlainWireLen | internal/framing/framing.go:146-183 | without a mode, or with a setting that is not positive, a frame is 28 bytes longer than its plaintext |
| Framing.WebWireLen | internal/framing/framing.go:171-200 | "web" gives at most max(1499, natural size + 16) |
| Framing.WebSampled | internal/framing/framing.go:187-200 | the first draw picks 53-149, 150-399, 400-799, 800-1199 or 1200-1499 with weights 35, 30, 20, 10, 5, and the second any size in it |
| Framing.WebExact | internal/framing/framing.go:171-180 | a frame smaller than the size sampled gets exactly that size, any other grows by the third draw modulo 17 |
| Framing.RandomExact | internal/framing/framing.go:167-170 | "random" adds the draw modulo RandMax + 1, and nothing where that sum wraps |
| Framing.UnclampedModes | internal/framing/framing.go:167-180 | "web" and "random" fit the buffer for all draws if and only if as many bytes are left as they may draw: 16, resp. the lesser of RandMax and 2^32 - 1 (0 where RandMax + 1 wraps) |
| Stream.ReceiveAll | internal/transport/framed/framed.go:39-69 | receiving over the concatenated sends gives exactly the frames, in order |
| Stream.EncodedBytes | internal/transport/framed/framed.go:39-53 | a frame goes out as its length in four bytes, most significant first, and itself |
| Stream.DecodeExact | internal/transport/framed/framed.go:55-69 | a frame is received exactly if its header announces 1 to 65535 bytes and they are there |
| Stream.ArrivesIff | internal/transport/framed/framed.go:39-69 | a frame gets through if and only if it has 1 to 65535 bytes and the connection takes four more |
| Stream.ReceiveTruncated | internal/transport/framed/framed.go:55-69 | a stream cut anywhere gives exactly the frames wholly before the cut, then an error |
| Stream.Reencode | internal/transport/framed/framed.go:55-69 | whatever any input decodes to re-encodes to a prefix of it |
| Stream.ReceivesSucceeded | internal/transport/framed/framed.go:39-69 | wherever the connection breaks, the other end receives exactly the frames whose Send reported success |
| Stream.Conn.Send | internal/transport/framed/framed.go:39-53 | header, then body, up to the point where the connection fails; refuses empty and oversized frames |
| Stream.Conn.Receive | internal/transport/framed/framed.go:55-69 | consumes one frame, with every error case |
| NoiseXK.IdealExists | internal/crypto/handshake.go:58-86 | the laws assumed of the handshake can be met |
| SessionKeys.Keys.constructor | internal/session/session.go:60-70 | send and receive keys by role, counter 0, fresh window |
| SessionKeys.Keys.Seal | internal/session/session.go:83-89 | seals under the send key with the low 32 bits of the counter, and advances it |
| SessionKeys.Keys.Open | internal/session/session.go:95-113 | authenticate, parse, check, then add; the error of each failure; the payload is a slice of the reused buffer |
| SessionKeys.OpenExact | internal/session/session.go:95-113 | which datagrams are refused as short, as forged and as replays, told from their bytes and key |
| SessionKeys.SealedAs | internal/session/session.go:83-89 | every datagram sealed has the sender's key, its own nonce, and 39 bytes more than payload and padding |
| SessionKeys.ShapedLen | internal/session/client.go:588-590 | with the padding the policy asks for, a datagram has the length WireLen gives |
| SessionKeys.PaddedAlike | internal/framing/framing.go:148-157 | with "pad" all short enough messages leave as datagrams of one length |
| SessionKeys.ReturnedIsSealed | internal/session/session.go:83-113 | up to 2^32 seals per key, whatever opens is exactly the frame with that number the sender sealed, without padding |
| SessionKeys.OpenAllReplay | internal/session/session.go:95-113 | over any deliveries the window is that of the authentic numbers, and frames come out as the window accepts |
| SessionKeys.ReturnedAtMostTwice | internal/session/session.go:95-113 | over any deliveries a frame is returned at most twice, once unless it jumped |
| SessionKeys.NewReturnedIff | internal/session/session.go:95-113 | after any deliveries, an authentic frame that never came before is returned exactly if its number is less than 2048 below the highest |
| SessionKeys.ForgeriesInert | internal/session/session.go:96-112 | deleting all unauthentic datagrams from any delivery changes neither the receiver nor what it returns |
| Endpoints.ParseAssigned | internal/session/session.go:161-177 | the assignment payload parses back to prefix, address and gateway |
| Endpoints.AssignBytes | internal/session/session.go:161-169 | prefix in byte 0, address in 1-4, gateway in 5-8, most significant byte first |
| Endpoints.AssignmentTaken | internal/session/client.go:318-334 | a client that waits for its address connects exactly on an assignment of nine bytes, gives up on one of another length, and ignores everything else |
| IPv4.ParseExact | internal/ippkt/ippkt.go:18-39 | Parse takes exactly the packets with version 4, at least five header words, and header within total length within packet; source is bytes 12-15, destination 16-19 |
| IPv4.ParseLaid | internal/ippkt/ippkt.go:18-39 | the addresses a sender lays out come back |
| IPv4.IsIPv4Exact | internal/session/client.go:626-631 | isIPv4 looks for 4 in the upper half of the first byte |
| Endpoints.DataExact | internal/session/server.go:703-722 | the server writes a packet out exactly if it is well-formed, within the MTU and its bytes 12-15 are the session's address |
| Endpoints.RekeyEnds | internal/session/server.go:680-701 | message 3 ends the server's rekey and installs the new pair exactly if the client that joined made it of this handshake; a timeout ends it and keeps the keys |
| Endpoints.RekeyStarts | internal/session/client.go:511-525 | message 1 is sealed under code 7 with the next number, which is used up, and the client rekeys exactly if it left |
| Endpoints.RekeyAnswered | internal/session/server.go:658-678 | the server answers it under code 8 with the message 2 of the same ephemeral key, and rekeys whether or not that left |
| Endpoints.RekeyContinued | internal/session/client.go:527-544 | message 3 goes under code 9 and the old keys; if it left the client is on the new pair, otherwise the handshake is spent |
| Endpoints.OthersIgnored | internal/session/server.go:561-569 | decoys and unknown codes do nothing at either end |
| Endpoints.OverrunsIff | internal/session/server.go:734-740 | the server seals a reply past its buffer if and only if, not rekeying, it opens a keepalive too long to echo, or a message 1 whose answer is, with the padding drawn |
| Endpoints.UnpaddedInBuffer | internal/framing/framing.go:59-61 | without padding, no datagram up to MaxWire does that |
| Endpoints.LongKeepaliveOverruns | internal/transport/framed/framed.go:15-16 | a keepalive that fills a 65535-byte stream frame does, whatever the padding |
| Endpoints.RekeyInBuffer | internal/session/client.go:511-544 | with up to 65340 bytes of padding, a client never seals a rekey message past its buffer |
| Fifo.BeginInv | internal/session/server.go:637-656 | accepting handshake message 3 starts the session in the settled phase with the assignment in flight |
| Fifo.StepKeeps | internal/session/server.go:658-701 | every step, closes included, keeps the net in one of three phases of a rekey |
| Fifo.NoFrameLost | internal/session/client.go:511-602 | in every lossless run with any rekeys, traffic and closes, the next frame at either end opens under its own key, frames opened are exactly the oldest sealed, and each TUN sees exactly the acceptable packets among them, in order |
| Fifo.CloseDrains | internal/session/client.go:612-616 | an end that receives a close has received everything the other end ever sealed for it |
| Fifo.CloseEnds | internal/session/server.go:559-560 | in every lossless run an end that received a close is gone, and one that did not close by itself is gone only then |
| Fifo.AcceptedIsLogged | internal/session/client.go:581-602 | a keepalive or decoy of a connected client that is not rekeying is sealed unchanged under the next number, unless it does not fit the buffer |
| Fifo.ServerSendLogged | internal/session/server.go:742-746 | the same for a decoy of the server |
| Fifo.DeliverySettles | internal/session/client.go:441-445 | delivery without new triggers stops within a weighted bound, and with nothing in flight both ends are on one epoch, not rekeying, and agree on all traffic and the address |
| Fifo.DeliveryGoesOn | internal/framing/framing.go:59-61 | in every run, whatever was sealed within the buffer is answered within it too if nothing is padded, so an end that is there can always take the next datagram |
| Tunnel.ClientReadsExact | internal/session/client.go:467-479 | a packet given to a connected client is sealed as data, unchanged and under the next number, exactly if its version is 4, it is within the MTU, it fits the buffer and no rekey is on; otherwise nothing changes |
| Tunnel.ServerReadsExact | internal/session/server.go:447-450 | the same for a packet for the client at the server, which checks neither version nor MTU |
| Tunnel.PacketArrives | internal/session/server.go:703-732 | in every lossless run, rekeys and closes included, a packet the client took comes out of the server's TUN in its place, once everything sent has arrived, if well-formed, from the client's address and within the MTU; otherwise it does not |
| Tunnel.ReplyArrives | internal/session/client.go:450-465 | the same downwards, with version and MTU as the client checks them |
| Tunnel.PacketCrosses | internal/session/client.go:467-479 | from a settled net, reading and delivering one packet adds exactly it, or nothing if dropped, to the other TUN, and both ends are settled again |
| Tunnel.ReplyCrosses | internal/session/server.go:447-450 | the same downwards |
| Tunnel.PingReturns | internal/session/server.go:734-740 | a keepalive comes back to the client with the payload it was sent with |
| Tunnel.RekeyCompletes | internal/session/client.go:511-544 | from a settled net, three deliveries put both ends on the pair of ephemeral keys just drawn |
| Tunnel.CloseCrosses | internal/session/client.go:612-616 | from a settled net, a polite close of either end and one delivery end the connection at both |
| Lossy.StepKeeps | internal/session/client.go:527-544 | every step over an adversarial network, with send failures, timeouts and closes, down to the close a server still sends over UDP when it is gone, keeps the key-history invariant |
| Lossy.EpochsNeverDiverge | internal/session/server.go:680-701 | whatever the network does, the server's key history is a prefix of the client's and at most one shorter |
| Lossy.GoneExact | internal/session/server.go:559-560 | over an adversarial network an end goes exactly when it closes by itself or opens a close (the client only once connected) |
| Lossy.CloseSealed | internal/session/server.go:518-530 | a polite close, and the one a server sends when it is gone, is one frame of code 6 under the next number, unless a rekey is on |
| Lossy.PacketSealed | internal/session/client.go:467-479 | a packet read from a TUN leaves under code 4 unchanged, exactly if its end takes it and Send succeeds |
| Recovery.StuckRun | internal/session/server.go:472-475 | once the server dropped the handshake a client completed, or is gone, no run changes either key again |
| Recovery.CatchUpIffExpecting | internal/session/server.go:680-701 | in every reachable state with the client ahead, some run lets the server catch up if and only if it is there and still holds that handshake |
| Recovery.LostThirdCutsOff | internal/session/server.go:472-475 | a run with message 3 lost and a timeout that leaves the client ahead for good |
| Recovery.AheadHearsNothing | internal/session/client.go:407-420 | while the client is ahead nothing ever sent opens at it |
| Leaving.SilencedRun | internal/session/client.go:527-544 | a client whose message 3 could not be sent seals nothing and keeps its keys in every continuation |
| Leaving.FailedThirdSilences | internal/session/client.go:535-537 | a run with one failed Send that leaves the client so |
| Leaving.EscapesIffAnswerable | internal/session/client.go:581-588 | in every reachable state with the client rekeying, some run ends the rekey if and only if the client awaits message 2 and: it is ahead of a server that is there and expects it; or a message 2 already sent, or at a server that is there its message 1, is still acceptable |
| ClientSessions.ClientSession.constructor | internal/session/client.go:76-82 | a client that is not connected yet |
| ClientSessions.ClientSession.WaitHandshakeReply | internal/session/client.go:344-375 | the loop computes what Listen says of any datagrams received |
| ClientSessions.ClientSession.Connect | internal/session/client.go:245-320 | tears down, makes the handshake and installs its keys and tag; every failure |
| ClientSessions.ClientSession.EncryptSend | internal/session/client.go:581-602 | seals and sends, gated while rekeying; a failed send still uses the number |
| ClientSessions.ClientSession.SendPacket | internal/session/client.go:467-479 | packets over the MTU or not IPv4 are dropped, others sent as the client step says |
| ClientSessions.ClientSession.Send | internal/session/client.go:481-491 | keepalives, decoys and the close as the client step says |
| ClientSessions.ClientSession.StartRekey | internal/session/client.go:511-525 | computes the client step that opens a rekey |
| ClientSessions.ClientSession.ContinueRekey | internal/session/client.go:527-544 | message 3 under the old keys, then the new ones; every failure |
| ClientSessions.ClientSession.HandleFrame | internal/session/client.go:378-465 | computes the client step for any datagram, before and after the assignment |
| ClientSessions.ClientSession.Teardown | internal/session/client.go:570-579 | drops keys and rekey state |
| ServerSessions.ServerSession.Handshake1 | internal/session/server.go:572-622 | lengths, rate limit and cookie by peer address, tag; computes the server step and counts the call |
| ServerSessions.ServerSession.Handshake3 | internal/session/server.go:637-656 | computes the server step, and updates the manager's books to match |
| ServerSessions.ServerSession.Rekey1 | internal/session/server.go:658-678 | computes the server step |
| ServerSessions.ServerSession.Rekey3 | internal/session/server.go:680-701 | installs the new keys exactly for the matching message and the same client |
| ServerSessions.ServerSession.RekeyTimeout | internal/session/server.go:472-475 | drops the pending rekey, keeps the keys |
| ServerSessions.ServerSession.Send | internal/session/server.go:748-771 | seals and sends, gated while rekeying |
| ServerSessions.ServerSession.HandleFrame | internal/session/server.go:538-570 | for any datagram once there are keys: panics exactly if it overruns the buffer, and otherwise computes the server step |
| CookieDoor.BareKnock | internal/session/server.go:572-622 | message 1 without a cookie gets a message 2 its sender can read, and leaves that handshake and the tag, exactly within the rate; beyond it gets exactly the cookie and leaves nothing |
| CookieDoor.CookiedKnock | internal/session/server.go:582-606 | with a cookie it does so exactly if that is the one of its address for this hour or the last |
| CookieDoor.MalformedKnock | internal/session/server.go:590-615 | anything else ends the session, or is challenged |
| CookieDoor.CookieLasts | internal/session/server.go:136-149 | a cookie is good for its own address only, for at least one hour and less than two |
| CookieDoor.AtMost39Answered | internal/session/server.go:593-600 | over any run of first messages on one table, at most 39 without a cookie from one address are answered in any ten seconds |
| Connecting.ListenExact | internal/session/client.go:344-375 | the client goes by the first datagram that is a message 2, and before that sends message 1 again at most once, with the first cookie |
| Connecting.ReconnectsAsNew | internal/session/client.go:570-579 | after a teardown a client that connects again starts like a new one, but remembers its address |
| Connecting.ConnectMeets | internal/session/client.go:278-320 | whatever the rate table holds, a client that answers a challenge within the hour and its session agree on ephemeral keys and tag, and are where Fifo and Lossy begin if the key is allowed and an address is left; otherwise the session ends and sends nothing |
| Connecting.MeetConnects | internal/session/client.go:322-340 | when the assignment then arrives, the client is connected at that address |
| AddressPool.FirstFreeIsLeast | internal/session/server.go:826-845 | the address given is the least unused host; failure exactly when all are used |
| AddressPool.AllocsExact | internal/session/server.go:826-845 | from empty, the k-th call gives base+2+k, for exactly 2^(32-p)-3 calls (none for /31 and /32) |
| AddressPool.FitsIn32 | internal/session/server.go:832-833 | the uint32 sum never overflows |
| AddressPool.GatewayFirst | internal/session/server.go:151-157 | the gateway is base+1 for every prefix up to 31 |
| AddressPool.IpPool.Alloc | internal/session/server.go:816-846 | the preferred address if in range and free, else the first free one |
| AddressPool.IpPool.Release | internal/session/server.go:848-856 | frees the address |
| RegistrySpec.BooksConsistent | internal/session/server.go:214-308 | after every run byIP and byStatic are exactly the live adopted unbumped sessions, the pool exactly their addresses, and byID holds only live unbumped sessions under their own ids |
| RegistrySpec.AddressesUnshared | internal/session/server.go:310-319 | after every run no two live unbumped sessions share an address |
| RegistrySpec.LiveUnshared | internal/session/server.go:286-308 | if no session is removed before those bumped on its key, live sessions at one address, bumped ones included, are of one key |
| IdRuns.BumpedSharesAddress | internal/session/server.go:259-308 | a run from empty with a removal out of that order, after which live sessions of two keys hold one address |
| RegistrySpec.AddressSticks | internal/session/server.go:259-308 | through reconnect chains of any length with late removals, a key keeps one address, routed to its newest session |
| RegistrySpec.NewcomerTakesOver | internal/session/server.go:259-283 | a newcomer overlapping its predecessor gets its address, key and route; the predecessor leaves byID and the pool is unchanged |
| RegistrySpec.LateRemovalInert | internal/session/server.go:286-308 | removing a bumped session touches no index and frees no address |
| RegistrySpec.OvershootBounded | internal/session/server.go:214-242 | in every run Sessions is the number of sessions inserted and not removed, and C concurrent calls overshoot MaxSessions by at most C-1 |
| IdRuns.OvershootReached | internal/session/server.go:214-242 | for every MaxSessions and C, byID does reach MaxSessions + C - 1 sessions |
| IdSpace.IdsConsistent | internal/session/server.go:214-235 | in every run with fewer than 2^32 admissions, or in which no call is overtaken, between its two critical sections, by more than 2^32 - MaxSessions - C others, byID holds every live unbumped session and the ids on their way in are free and different |
| IdSpace.ReuseTakes | internal/session/server.go:244-254 | an id that is handed out again for the first time while a call holds it: that call has been overtaken by more than 2^32 - MaxSessions - C others |
| IdSpace.FirstTimeRound | internal/session/server.go:244-254 | while fewer than 2^32 calls have been admitted, nextID counts them, every id in use is at most that, and none is handed out while a call holds it |
| IdSpace.NotHandedOutAgain | internal/session/server.go:244-254 | under either bound no id is handed out while another call holds it |
| IdRuns.ExactIffFew | internal/session/server.go:214-254 | byID holds every live unbumped session in all runs of at most n admissions if and only if n < 2^32, for every MaxSessions >= 1 and C >= 2 |
| IdRuns.ExactIffPrompt | internal/session/server.go:214-254 | it does in all runs in which no call is overtaken by more than n others if and only if n + MaxSessions + C <= 2^32, for every MaxSessions and 2 <= C <= MaxSessions + 1 |
| IdRuns.OneCaller | internal/session/server.go:214-254 | without concurrent calls it does in every run |
| IdSpace.BumpedCounted | internal/session/server.go:286-308 | under either bound Sessions minus len(byID) is the number of bumped sessions left |
| IdRuns.LongRunLoses | internal/session/server.go:214-254 | a run from empty with 2^32 admissions, for every MaxSessions >= 1 and C >= 2, after which a live session is in byID nowhere |
| IdRuns.TurnRunLoses | internal/session/server.go:214-254 | such a run in which no call is overtaken by more than 2^32 + 1 - MaxSessions - C others |
| IdSpace.ReplyReaches | internal/session/server.go:311-343 | with fewer than 2^32 admissions, a packet looked up by address and sent by session id later goes to the session that was found, or to none |
| IdRuns.ReplyGoesAstray | internal/session/server.go:311-343 | a run with 2^32 admissions in which it goes to another |
| IdSpace.FreeIdExists | internal/session/server.go:244-254 | with fewer than 2^32 - 1 sessions the id search has something to find |
| RegistrySpec.FirstFreeIdUnique | internal/session/server.go:244-254 | the first free id is unique, nonzero and below 2^32 |
| Managers.Manager.constructor | internal/session/server.go:93-119 | empty books |
| Managers.Manager.AllocID | internal/session/server.go:244-254 | terminates through the wraparound and returns the first free id after nextID |
| Managers.Manager.Admit | internal/session/server.go:215-222 | refuses exactly at MaxSessions, else takes an id |
| Managers.Manager.Insert | internal/session/server.go:224-235 | enters the new session |
| Managers.Manager.Adopt | internal/session/server.go:259-283 | updates all indexes, the pool and both sessions as specified, and cancels the session taken over from and no other |
| Managers.Manager.Remove | internal/session/server.go:286-308 | clears only the indexes that still point at the session |
| Managers.Manager.LookupIP | internal/session/server.go:311-319 | finds the one live session that holds the address, if there is one |
| Managers.Manager.Route | internal/session/server.go:347-372 | a packet from the TUN goes to the one live session that holds its destination address, exactly if it is well-formed and there is one |
| Limiter.RateTable.RequireCookie | internal/session/server.go:123-133 | one call on one address's bucket, others untouched |
| Limiter.OpenerExact | internal/session/server.go:126-132 | a bucket passes exactly the first 20 calls since it was opened |
| Limiter.ReopensIff | internal/session/server.go:126-129 | a bucket is opened by the first call and by one more than ten seconds after the last opening, and by no other |
| Limiter.AtMost39 | internal/session/server.go:82-91 | any closed ten-second interval passes at most 39 handshakes of an address |
| Limiter.TableProjects | internal/session/server.go:123-133 | however calls of many addresses interleave, the table holds and passes for each address what its own calls give |
| Limiter.TableAtMost39 | internal/session/server.go:82-91 | so the table too passes at most 39 of an address in any ten seconds |
| Limiter.Attained | internal/session/server.go:82-91 | 39 is reached |
| Gate.OnlyAdmittedTraffic | internal/session/server.go:703-732 | over every run a packet reaches the TUN only after the one join, with an allowed key, and with the session's source address and the MTU kept |
| Gate.WrittenIff | internal/session/server.go:538-570 | over every run a datagram writes its payload exactly if it opens as data that is a well-formed packet within the MTU from the session's address, and ends the session exactly if it opens as a close |
| Gate.FirstAnswered | internal/session/server.go:602-621 | an admitted message 1 gets exactly one datagram, a message 2 that tells its sender the server's ephemeral key |
| Gate.FirstChallenged | internal/session/server.go:591-600 | a challenged one gets the cookie, and the session is as before |
| Gate.ThirdJoinsIff | internal/session/server.go:637-656 | message 3 makes the session join, with its key, pair, tag and address, exactly if the list is empty or has the key and there is an address; otherwise the session is over, knows the key and sends nothing |
| Gate.WrongThirdEnds | internal/session/server.go:641-644 | any other datagram at that point ends the session |
| Gate.HandshakeJoins | internal/session/server.go:572-656 | the run of a whole handshake from the start |
| Gate.OwnAccord | internal/session/server.go:446-484 | what a joined session does by itself: packets as code 4, decoys as 0x0B, the close as 6, nothing of these while a rekey is on; a tick drops an old rekey; only leaving ends it |
| Gate.Finishes | internal/session/server.go:518-530 | a session that is over seals one more close, unless a rekey was on, and nothing else |
| Gate.FirstFrameAssigns | internal/session/server.go:637-656 | over every run no AEAD frame leaves before the join, and if the assignment's Send succeeded the first one is the assignment, number 0, under the handshake's keys |
| Gate.ZeroOnlyAssigns | internal/session/session.go:83-89 | under those keys nothing else ever leaves as number 0, and nothing at all does if that Send failed |
| Gate.RekeyAuthenticated | internal/session/server.go:680-701 | the key pair changes only on an authentic frame with message 3 of the pending handshake, made by the client that joined |
| Gate.JoinAuthenticated | internal/session/server.go:637-653 | a session joins only on message 3 of its own handshake by the key it joins with |

## Left out

- IdRuns.ExactIffPrompt: with more than MaxSessions + 1 concurrent calls, or MaxSessions + 2C above 2^32 + 2, only its sufficient half is proved, as IdsConsistent.
- IdSpace.IdsConsistent: goes one way; beyond both bounds it depends on the run, and ExactIffFew and ExactIffPrompt say that neither bound can be relaxed.
- RegistrySpec.LiveUnshared: goes one way; after a removal out of order it depends on whether anyone is given the address.
- Limiter.AtMost39: assumes fewer than 2^32 calls per bucket, after which the uint32 counter would wrap; so does TableAtMost39.
- Fifo.NoFrameLost: like Tunnel.PacketArrives, covers up to 2^32 seals per key; it has no send failures and no rekey timeout at the server, which `Lossy` has.
- Recovery.CatchUpIffExpecting: covers up to 2^32 seals per key, like EscapesIffAnswerable; both speak of one connection, which a reconnecting client leaves.
- Leaving.EscapesIffAnswerable: also takes it that one ephemeral key has not been drawn yet.
- Gate.ZeroOnlyAssigns: holds while no ephemeral key is drawn twice and the counter has not wrapped.
- Lossy.StepKeeps: lets a server that is gone send its last close more than once; so does Gate.
- Gate.OnlyAdmittedTraffic: like all of Gate, also covers steps on which Seal would panic; runs of Fifo and Lossy have none.
- ClientSessions.ClientSession.HandleFrame: demands that what it seals fits the buffer, where the code would panic; so do the other sending methods of both session classes.
- SessionKeys.Keys.Seal: allocates its buffer instead of taking it from the pool; the freelist (`fixedPool`) would only add easy members.
- ServerSessions.ServerSession.Handshake1: takes the cookie MAC as a function; that it cannot be forged is not modelled.
- CookieDoor.CookieLasts: assumes that no two addresses and hours have the same cookie.
- CookieDoor.AtMost39Answered: assumes fewer than 2^32 calls per bucket, and a clock that does not go back.
- Connecting.ConnectMeets: has every Send succeed and nothing else arrive in between; ListenExact and Dial cover the rest at the client.
- Stream.Conn.Send: a connection that has failed once takes nothing more.
- The channels between goroutines; of Reply, the lookups are modelled and the full queue is not.
- The client's reconnect loop with its backoff and timeouts; one connection attempt is modelled.
- Noise, X25519, ChaCha20-Poly1305 and key storage, which are foreign libraries.
- Sockets, TLS camouflage, TUN devices, routing, desync, control socket, metrics, pcap, configuration and the command line.
- Timers, jitter and decoy scheduling, which are triggers here; statistics and logging.
- Secrecy, unlinkability and traffic analysis, which are not functional properties.
