/**
 * The two ends of a session as state machines: what client.go and server.go do with one
 * datagram or one local trigger. Randomness and the outcome of Send are inputs.
 */
module Endpoints {
  import opened Bytes
  import opened IPv4
  import opened Framing
  import opened NoiseXK
  import opened SessionKeys
  import Stream
  import RS = ReplaySpec

  const MSG_DATA: Byte := 0x04
  const MSG_KEEPALIVE: Byte := 0x05
  const MSG_CLOSE: Byte := 0x06
  const MSG_REKEY1: Byte := 0x07
  const MSG_REKEY2: Byte := 0x08
  const MSG_REKEY3: Byte := 0x09
  const MSG_ASSIGN: Byte := 0x0A
  const MSG_DECOY: Byte := 0x0B
  const COOKIE_LEN: nat := 32

  predicate IsRekey(typ: Byte) {
    typ == MSG_REKEY1 || typ == MSG_REKEY2 || typ == MSG_REKEY3
  }

  /** What one step draws: a frame's nonce and padding, an ephemeral key, and whether Send succeeds. */
  datatype Draw = Draw(nonce: Nonce, padding: Bytes, ephemeral: Point, sendOk: bool)

  /** `encryptSend` on a live session: the keys afterwards, the datagram that left, and the success it reports. */
  function EncryptSend(k: KeyState, rekeying: bool, tag: Tag, typ: Byte, pt: Bytes, d: Draw)
    : (KeyState, seq<Wire>, bool)
  {
    if rekeying && !IsRekey(typ) then (k, [], false)
    else
      var w := SealedWire(k, Message(d.nonce, tag, typ, pt, d.padding));
      (AfterSeal(k), if d.sendOk then [w] else [], d.sendOk)
  }

  /** The same step, with a Send that succeeds: whatever it seals leaves. */
  function Sure(d: Draw): Draw { d.(sendOk := true) }

  /** The frame fits the pooled buffer that Seal slices. */
  predicate Fits(d: Draw, payload: Bytes) {
    HEADER_LEN + |payload| + |d.padding| <= MAX_INNER
  }

  /** No sealed frame is larger than that buffer; slicing it further panics. */
  predicate InBuffer(ws: seq<Wire>) {
    forall i :: 0 <= i < |ws| && ws[i].Box? ==> Len(ws[i]) <= MAX_WIRE
  }

  lemma SealInBuffer(k: KeyState, tag: Tag, typ: Byte, pt: Bytes, d: Draw)
    ensures InBuffer([SealedWire(k, Message(d.nonce, tag, typ, pt, d.padding))]) <==> Fits(d, pt)
  {
    var w := SealedWire(k, Message(d.nonce, tag, typ, pt, d.padding));
    assert Len(w) == NONCE_LEN + HEADER_LEN + |pt| + |d.padding| + TAG_LEN;
    assert [w][0] == w;
  }

  /** What encryptSend seals is within the buffer exactly if it is gated or fits. */
  lemma EncryptSendInBuffer(k: KeyState, rekeying: bool, tag: Tag, typ: Byte, pt: Bytes, d: Draw)
    ensures InBuffer(EncryptSend(k, rekeying, tag, typ, pt, Sure(d)).1) <==> (rekeying && !IsRekey(typ)) || Fits(d, pt)
  {
    hide SealedWire;
    SealInBuffer(k, tag, typ, pt, Sure(d));
  }

  // ---- Address assignment ----

  datatype Assignment = Assignment(prefix: nat, ip: nat, gw: nat)

  function AssignPayload(a: Assignment): (b: Bytes)
    ensures |b| == 9
  {
    [a.prefix % 256] + Put32(a.ip) + Put32(a.gw)
  }

  function ParseAssign(b: Bytes): Option<Assignment> {
    if |b| != 9 then None else Some(Assignment(b[0], Get32(b[1..5]), Get32(b[5..9])))
  }

  lemma ParseAssigned(a: Assignment)
    ensures ParseAssign(AssignPayload(a)) == Some(Assignment(a.prefix % 256, a.ip % TWO32, a.gw % TWO32))
  {
    var b := AssignPayload(a);
    assert b[1..5] == Put32(a.ip) && b[5..9] == Put32(a.gw);
    GetPut32(a.ip);
    GetPut32(a.gw);
  }

  /** One byte of prefix, four of address and four of gateway. */
  lemma AssignBytes(a: Assignment)
    ensures var b := AssignPayload(a);
            && b[0] == a.prefix % 256 && Quad(b, 1) == a.ip % TWO32 && Quad(b, 5) == a.gw % TWO32
  {
    var b := AssignPayload(a);
    assert b[1..5] == Put32(a.ip) && b[5..9] == Put32(a.gw);
    hide Put32, Quad;
    PutsQuad(b, 1, a.ip);
    PutsQuad(b, 5, a.gw);
  }

  // ---- Client ----

  /** The client's side of a rekey handshake: message 1 is out, or message 3 was made but could not be sent. */
  datatype ClientHandshake = AwaitReply(e: Point) | Spent

  datatype ClientConfig = ClientConfig(noise: Noise, identity: Point, mtu: nat)

  /** Before `connected` the client sits in waitAssign. */
  datatype Client = Client(
    keys: Option<KeyState>,
    tag: Tag,
    connected: bool,
    address: Option<Assignment>,
    rekeying: bool,
    rekeyHs: Option<ClientHandshake>)

  /** The client's new state, what it sends, and what it writes to its TUN. */
  datatype ClientStep = ClientStep(client: Client, sends: seq<Wire>, tun: seq<Bytes>)

  function Teardown(c: Client): Client {
    c.(keys := None, connected := false, rekeying := false, rekeyHs := None)
  }

  /** A keepalive, decoy or close from the run loop. */
  function ClientSend(c: Client, typ: Byte, pt: Bytes, d: Draw): ClientStep {
    if c.keys.None? then ClientStep(c, [], [])
    else
      var (k, sends, _) := EncryptSend(c.keys.value, c.rekeying, c.tag, typ, pt, d);
      ClientStep(c.(keys := Some(k)), sends, [])
  }

  /** `startRekey`, from a keepalive tick that found a connected client not rekeying. */
  function StartRekey(cfg: ClientConfig, c: Client, d: Draw): ClientStep {
    if c.keys.None? || !c.connected || c.rekeying then ClientStep(c, [], [])
    else
      var (k, sends, ok) := EncryptSend(c.keys.value, c.rekeying, c.tag, MSG_REKEY1,
                                        cfg.noise.write1(d.ephemeral, []), d);
      if ok then ClientStep(c.(keys := Some(k), rekeyHs := Some(AwaitReply(d.ephemeral)), rekeying := true), sends, [])
      else ClientStep(c.(keys := Some(k)), sends, [])
  }

  /** `continueRekey`: message 3 leaves under the old keys, then the new ones are installed. */
  function ContinueRekey(cfg: ClientConfig, c: Client, msg: Bytes, d: Draw): ClientStep
    requires c.keys.Some?
  {
    if c.rekeyHs.None? || c.rekeyHs.value.Spent? then ClientStep(c, [], [])
    else
      var e := c.rekeyHs.value.e;
      match cfg.noise.read2(e, msg)
      case None => ClientStep(c, [], [])
      case Some(s) =>
        var (k, sends, ok) := EncryptSend(c.keys.value, c.rekeying, c.tag, MSG_REKEY3,
                                          cfg.noise.write3(e, s, cfg.identity), d);
        if ok then
          ClientStep(c.(keys := Some(NewKeys(true, Pair(e, s))), rekeying := false, rekeyHs := None), sends, [])
        else
          ClientStep(c.(keys := Some(k), rekeyHs := Some(Spent)), sends, [])
  }

  /** `sendPacket`: a packet from the TUN. */
  function ClientPacket(cfg: ClientConfig, c: Client, pkt: Bytes, d: Draw): ClientStep {
    if |pkt| > cfg.mtu || !IsIPv4(pkt) then ClientStep(c, [], []) else ClientSend(c, MSG_DATA, pkt, d)
  }

  function ClientDispatch(cfg: ClientConfig, c: Client, f: Frame, d: Draw): ClientStep
    requires c.keys.Some?
  {
    if f.tag != c.tag then ClientStep(c, [], [])
    else if !c.connected then
      if f.typ != MSG_ASSIGN then ClientStep(c, [], [])
      else
        match ParseAssign(f.payload)
        case Some(a) => ClientStep(c.(connected := true, address := Some(a)), [], [])
        case None => ClientStep(c.(keys := None), [], [])
    else if f.typ == MSG_DATA then
      ClientStep(c, [], if |f.payload| <= cfg.mtu && IsIPv4(f.payload) then [f.payload] else [])
    else if f.typ == MSG_CLOSE then ClientStep(Teardown(c), [], [])
    else if f.typ == MSG_REKEY2 && c.rekeying then ContinueRekey(cfg, c, f.payload, d)
    else ClientStep(c, [], [])
  }

  /** `handleFrame`, and `waitAssign` before the address has arrived. */
  function ClientReceive(cfg: ClientConfig, c: Client, w: Wire, d: Draw): ClientStep {
    if c.keys.None? then ClientStep(c, [], [])
    else
      var (k, r) := OpenWire(c.keys.value, w);
      if r.Refused? then ClientStep(c, [], [])
      else ClientDispatch(cfg, c.(keys := Some(k)), r.frame, d)
  }

  /**
   * A client that waits for its address: an assignment of nine bytes connects it and tells it prefix,
   * address and gateway; one of any other length makes it give up; everything else it ignores.
   */
  lemma AssignmentTaken(cfg: ClientConfig, c: Client, w: Wire, d: Draw)
    requires c.keys.Some? && !c.connected
    ensures var r, o := ClientReceive(cfg, c, w, d), OpenWire(c.keys.value, w).1;
            var told := o.Opened? && o.frame.tag == c.tag && o.frame.typ == 0x0A;
            && r.sends == [] && r.tun == []
            && (r.client.keys.None? <==> told && |o.frame.payload| != 9)
            && (r.client.connected <==> told && |o.frame.payload| == 9)
            && r.client.address == if told && |o.frame.payload| == 9 then
                                     var b := o.frame.payload;
                                     Some(Assignment(b[0], Quad(b, 1), Quad(b, 5)))
                                   else c.address
  {
    hide OpenWire, Get32, Quad;
    var o := OpenWire(c.keys.value, w).1;
    if o.Opened? && |o.frame.payload| == 9 {
      GetsQuad(o.frame.payload, 1);
      GetsQuad(o.frame.payload, 5);
    }
  }

  // ---- Server ----

  datatype ServerConfig = ServerConfig(noise: Noise, mtu: nat, prefix: nat, gw: nat)

  datatype Server = Server(
    hs: Option<Pair>,
    clientKey: Option<Point>,
    ip: Option<nat>,
    tag: Tag,
    keys: Option<KeyState>,
    rekeying: bool,
    rekeyHs: Option<Pair>)

  /** The session's new state, what it sends and writes to the TUN, and whether it stops (`errFatal`). */
  datatype ServerStep = ServerStep(server: Server, sends: seq<Wire>, tun: seq<Bytes>, fatal: bool)

  function Idle(s: Server): ServerStep { ServerStep(s, [], [], false) }

  function Fatal(s: Server): ServerStep { ServerStep(s, [], [], true) }

  /** Decoys, keepalive echoes and the close. */
  function ServerSend(s: Server, typ: Byte, pt: Bytes, d: Draw): ServerStep {
    if s.keys.None? then Idle(s)
    else
      var (k, sends, _) := EncryptSend(s.keys.value, s.rekeying, s.tag, typ, pt, d);
      ServerStep(s.(keys := Some(k)), sends, [], false)
  }

  /** A packet from the TUN for this client: `run` on its reply channel. */
  function ServerPacket(s: Server, pkt: Bytes, d: Draw): ServerStep {
    if s.keys.None? || s.ip.None? then Idle(s) else ServerSend(s, MSG_DATA, pkt, d)
  }

  /** What the manager answers about the peer's address: a challenge is due (the cookie to send), or not. */
  datatype Door = Admit | Challenge(cookie: Bytes)

  /** `handshake1`. `bare` and `cookied` say how the door treats a message without and with a valid cookie. */
  function Handshake1(cfg: ServerConfig, s: Server, w: Wire, bare: Door, cookied: Door, d: Draw): ServerStep {
    if Len(w) != 52 && Len(w) != 52 + COOKIE_LEN then Fatal(s)
    else
      var door := if Len(w) == 52 then bare else cookied;
      if door.Challenge? then ServerStep(s, if d.sendOk then [Raw(door.cookie)] else [], [], false)
      else if !w.Raw? then Fatal(s)
      else
        match cfg.noise.read1(w.bytes[..52])
        case None => Fatal(s)
        case Some((e, payload)) =>
          if |payload| != 4 then Fatal(s)
          else
            var p := Pair(e, d.ephemeral);
            ServerStep(s.(tag := payload, hs := Some(p)),
                       if d.sendOk then [Raw(cfg.noise.write2(p.client, p.server))] else [], [], false)
  }

  /** `handshake3`. `allowed` is the verdict on the client's key, `address` what adopt assigns. */
  function Handshake3(cfg: ServerConfig, s: Server, w: Wire, allowed: Point -> bool, address: Option<nat>,
                      d: Draw): ServerStep
    requires s.hs.Some?
  {
    var p := s.hs.value;
    if !w.Raw? then Fatal(s)
    else
      match cfg.noise.read3(p.client, p.server, w.bytes)
      case None => Fatal(s)
      case Some(key) =>
        var known := s.(clientKey := Some(key));
        if !allowed(key) || address.None? then Fatal(known)
        else
          var live := known.(ip := address, keys := Some(NewKeys(false, p)), hs := None);
          ServerSend(live, MSG_ASSIGN, AssignPayload(Assignment(cfg.prefix, address.value, cfg.gw)), d)
  }

  function Rekey1(cfg: ServerConfig, s: Server, msg: Bytes, d: Draw): ServerStep {
    if s.keys.None? || s.rekeying then Idle(s)
    else
      match cfg.noise.read1(msg)
      case None => Idle(s)
      case Some((e, _)) =>
        var p := Pair(e, d.ephemeral);
        ServerSend(s.(rekeyHs := Some(p), rekeying := true), MSG_REKEY2, cfg.noise.write2(p.client, p.server), d)
  }

  function AbortRekey(s: Server): Server {
    s.(rekeying := false, rekeyHs := None)
  }

  function Rekey3(cfg: ServerConfig, s: Server, msg: Bytes): ServerStep {
    if !s.rekeying || s.rekeyHs.None? then Idle(s)
    else
      var p := s.rekeyHs.value;
      var key := cfg.noise.read3(p.client, p.server, msg);
      if key.None? || s.clientKey != key then Idle(AbortRekey(s))
      else Idle(AbortRekey(s).(keys := Some(NewKeys(false, p))))
  }

  /** The ticker found the rekey older than HandshakeTimeout. */
  function RekeyTimeout(s: Server): Server {
    if s.rekeying then AbortRekey(s) else s
  }

  /**
   * Message 3 ends a rekey, whatever it is: the server moves to the new pair exactly on the message that
   * the client it joined with made of this handshake. A timeout ends it too, and leaves the keys alone.
   */
  lemma RekeyEnds(cfg: ServerConfig, s: Server, msg: Bytes)
    requires Ideal(cfg.noise) && s.rekeying && s.rekeyHs.Some? && s.clientKey.Some?
    ensures var p, r := s.rekeyHs.value, Rekey3(cfg, s, msg);
            && r.sends == [] && r.tun == [] && !r.fatal
            && r.server == s.(rekeying := false, rekeyHs := None,
                              keys := if msg == cfg.noise.write3(p.client, p.server, s.clientKey.value)
                                      then Some(NewKeys(false, p)) else s.keys)
    ensures RekeyTimeout(s) == s.(rekeying := false, rekeyHs := None)
  {
    var p := s.rekeyHs.value;
    assert cfg.noise.read3(p.client, p.server, cfg.noise.write3(p.client, p.server, s.clientKey.value)) == s.clientKey;
  }

  /** A packet the server lets out to its TUN on behalf of the client at `ip`, told from its own bytes. */
  predicate Admissible(cfg: ServerConfig, ip: nat, packet: Bytes) {
    WellFormed(packet) && Source(packet) == ip && |packet| <= cfg.mtu
  }

  /** `handleData`: malformed packets and those with a foreign source are dropped. */
  function ServerData(cfg: ServerConfig, s: Server, pt: Bytes): ServerStep {
    if |pt| > cfg.mtu || s.ip.None? then Idle(s)
    else
      match Parse(pt)
      case None => Idle(s)
      case Some(h) => if h.src != s.ip.value then Idle(s) else ServerStep(s, [], [pt], false)
  }

  /** So it is the admissible packets that get out. */
  lemma DataExact(cfg: ServerConfig, s: Server, pt: Bytes)
    ensures ServerData(cfg, s, pt)
         == ServerStep(s, [], if s.ip.Some? && Admissible(cfg, s.ip.value, pt) then [pt] else [], false)
  {
    hide Parse, WellFormed, Source;
    ParseExact(pt);
  }

  function ServerDispatch(cfg: ServerConfig, s: Server, f: Frame, d: Draw): ServerStep
    requires s.keys.Some?
  {
    if f.tag != s.tag then Idle(s)
    else if f.typ == MSG_DATA then ServerData(cfg, s, f.payload)
    else if f.typ == MSG_KEEPALIVE then ServerSend(s, MSG_KEEPALIVE, f.payload, d)
    else if f.typ == MSG_CLOSE then Fatal(s)
    else if f.typ == MSG_REKEY1 then Rekey1(cfg, s, f.payload, d)
    else if f.typ == MSG_REKEY3 then Rekey3(cfg, s, f.payload)
    else Idle(s)
  }

  /** `handle` once the session has keys. */
  function ServerReceive(cfg: ServerConfig, s: Server, w: Wire, d: Draw): ServerStep
    requires s.keys.Some?
  {
    var (k, r) := OpenWire(s.keys.value, w);
    if r.Refused? then Idle(s)
    else ServerDispatch(cfg, s.(keys := Some(k)), r.frame, d)
  }

  /** The datagram makes the server seal a reply that does not fit its buffer. */
  predicate Overruns(cfg: ServerConfig, s: Server, w: Wire, d: Draw)
    requires s.keys.Some?
  {
    !InBuffer(ServerReceive(cfg, s, w, Sure(d)).sends)
  }

  lemma NothingInBuffer()
    ensures InBuffer([])
  {
  }

  lemma DispatchInBuffer(cfg: ServerConfig, s: Server, f: Frame, d: Draw)
    requires s.keys.Some?
    ensures !InBuffer(ServerDispatch(cfg, s, f, Sure(d)).sends) <==>
            && f.tag == s.tag && !s.rekeying
            && (|| (f.typ == MSG_KEEPALIVE && !Fits(d, f.payload))
                || (f.typ == MSG_REKEY1 && cfg.noise.read1(f.payload).Some?
                    && !Fits(d, cfg.noise.write2(cfg.noise.read1(f.payload).value.0, d.ephemeral))))
    ensures f.typ == MSG_KEEPALIVE && (s.rekeying || Fits(d, f.payload)) ==>
              InBuffer(ServerSend(s, MSG_KEEPALIVE, f.payload, Sure(d)).sends)
    ensures f.typ == MSG_REKEY1
            && (s.rekeying || cfg.noise.read1(f.payload).None?
                || Fits(d, cfg.noise.write2(cfg.noise.read1(f.payload).value.0, d.ephemeral))) ==>
              InBuffer(Rekey1(cfg, s, f.payload, Sure(d)).sends)
  {
    hide SealedWire, Parse;
    EncryptSendInBuffer(s.keys.value, s.rekeying, s.tag, MSG_KEEPALIVE, f.payload, d);
    if cfg.noise.read1(f.payload).Some? {
      EncryptSendInBuffer(s.keys.value, true, s.tag, MSG_REKEY2,
                          cfg.noise.write2(cfg.noise.read1(f.payload).value.0, d.ephemeral), d);
    }
  }

  /**
   * Which datagrams do that: fresh authentic ones with the session's tag, while no rekey is on, that
   * carry a keepalive too long to be echoed with the padding drawn, or start a rekey whose message 2
   * is. Everything else is handled within the buffer.
   */
  lemma OverrunsIff(cfg: ServerConfig, s: Server, w: Wire, d: Draw)
    requires s.keys.Some?
    ensures Overruns(cfg, s, w, d) <==>
            var r := OpenWire(s.keys.value, w).1;
            && r.Opened? && r.frame.tag == s.tag && !s.rekeying
            && (|| (r.frame.typ == MSG_KEEPALIVE && !Fits(d, r.frame.payload))
                || (r.frame.typ == MSG_REKEY1 && cfg.noise.read1(r.frame.payload).Some?
                    && !Fits(d, cfg.noise.write2(cfg.noise.read1(r.frame.payload).value.0, d.ephemeral))))
  {
    hide OpenWire, ServerDispatch, InBuffer;
    NothingInBuffer();
    var (k, r) := OpenWire(s.keys.value, w);
    if r.Opened? {
      DispatchInBuffer(cfg, s.(keys := Some(k)), r.frame, d);
    }
  }

  /** A datagram no longer than the protocol's own maximum is always answered within the buffer if nothing is padded. */
  lemma UnpaddedInBuffer(cfg: ServerConfig, s: Server, w: Wire, d: Draw)
    requires s.keys.Some? && Ideal(cfg.noise) && Len(w) <= MAX_WIRE && d.padding == []
    ensures !Overruns(cfg, s, w, d)
  {
    hide Overruns, OpenWire;
    OverrunsIff(cfg, s, w, d);
    if OpenWire(s.keys.value, w).1.Opened? {
      OpenedInside(s.keys.value, w);
    }
  }

  lemma OpenedInside(k: KeyState, w: Wire)
    requires OpenWire(k, w).1.Opened?
    ensures w.Box? && HEADER_LEN + |OpenWire(k, w).1.frame.payload| <= |w.inner|
  {
  }

  /**
   * But stream transports take frames up to MaxFrame = 65535 bytes. A keepalive that fills one makes
   * the server overrun its buffer, whatever padding it draws.
   */
  lemma LongKeepaliveOverruns(cfg: ServerConfig, s: Server, n: nat, nonce: Nonce, cookie: Bytes, d: Draw)
    requires s.keys.Some? && !s.rekeying && !s.keys.value.isClient
    requires |cookie| == Stream.MAX_FRAME - NONCE_LEN - TAG_LEN - HEADER_LEN
    requires n < TWO32 && RS.Check(s.keys.value.replay, n)
    ensures var w := Box(s.keys.value.RecvKey(), nonce, Inner(s.tag, MSG_KEEPALIVE, n, cookie, []));
            Len(w) == Stream.MAX_FRAME && Overruns(cfg, s, w, d)
  {
    hide Overruns, Inner, ParseInner;
    var w := Box(s.keys.value.RecvKey(), nonce, Inner(s.tag, MSG_KEEPALIVE, n, cookie, []));
    ParseSealed(s.tag, MSG_KEEPALIVE, n, cookie, []);
    OpenStep(s.keys.value, w);
    OverrunsIff(cfg, s, w, d);
  }

  /** Noise messages are at most 128 bytes long: with up to 65340 of padding, a client seals them within the buffer. */
  lemma RekeyInBuffer(cfg: ClientConfig, c: Client, w: Wire, d: Draw)
    requires Ideal(cfg.noise) && |d.padding| <= 65340
    ensures InBuffer(ClientReceive(cfg, c, w, Sure(d)).sends) && InBuffer(StartRekey(cfg, c, Sure(d)).sends)
  {
    hide OpenWire, SealedWire, InBuffer, ParseAssign;
    NothingInBuffer();
    if c.keys.Some? {
      var (k, r) := OpenWire(c.keys.value, w);
      SealInBuffer(c.keys.value, c.tag, MSG_REKEY1, cfg.noise.write1(d.ephemeral, []), Sure(d));
      if r.Opened? && c.rekeyHs.Some? && c.rekeyHs.value.AwaitReply? {
        match cfg.noise.read2(c.rekeyHs.value.e, r.frame.payload)
        case None =>
        case Some(s) =>
          SealInBuffer(k, c.tag, MSG_REKEY3, cfg.noise.write3(c.rekeyHs.value.e, s, cfg.identity), Sure(d));
      }
    }
  }

  /** So does a server, whatever it is handed, unless that is a keepalive. */
  lemma RepliesInBuffer(cfg: ServerConfig, s: Server, w: Wire, d: Draw)
    requires s.keys.Some? && Ideal(cfg.noise) && |d.padding| <= 65340
    requires var r := OpenWire(s.keys.value, w).1; r.Opened? ==> r.frame.typ != MSG_KEEPALIVE
    ensures !Overruns(cfg, s, w, d)
  {
    hide Overruns, OpenWire;
    OverrunsIff(cfg, s, w, d);
  }

  // ---- The messages of a rekey, by their codes on the wire ----

  /** One frame of that type was sealed with the next number, which is used up; it left if Send succeeded. */
  predicate SealedOne(k: KeyState, k': KeyState, sends: seq<Wire>, tag: Tag, typ: Byte, payload: Bytes, d: Draw) {
    && k' == AfterSeal(k)
    && if d.sendOk then
         |sends| == 1 && sends[0].Box? && sends[0].key == k.SendKey() && sends[0].nonce == d.nonce
         && Carried(sends[0]) == Frame(tag, typ, k.sendSeq % TWO32, payload)
       else sends == []
  }

  lemma SealsOne(k: KeyState, tag: Tag, typ: Byte, payload: Bytes, d: Draw)
    requires |payload| < TWO16
    ensures var (k', sends, ok) := EncryptSend(k, true, tag, typ, payload, d);
            IsRekey(typ) ==> SealedOne(k, k', sends, tag, typ, payload, d) && ok == d.sendOk
    ensures var (k', sends, ok) := EncryptSend(k, false, tag, typ, payload, d);
            SealedOne(k, k', sends, tag, typ, payload, d) && ok == d.sendOk
  {
    hide Carried, Offered;
    CarriedSealed(k, Message(d.nonce, tag, typ, payload, d.padding));
  }

  /** A connected client that is not rekeying sends message 1 under code 7, and rekeys if and only if that left. */
  lemma RekeyStarts(cfg: ClientConfig, c: Client, d: Draw)
    requires Ideal(cfg.noise) && c.keys.Some? && c.connected && !c.rekeying
    ensures var r := StartRekey(cfg, c, d);
            && r.client.keys.Some? && r.tun == []
            && SealedOne(c.keys.value, r.client.keys.value, r.sends, c.tag, 0x07, cfg.noise.write1(d.ephemeral, []), d)
            && r.client == if d.sendOk
                           then c.(keys := r.client.keys, rekeying := true, rekeyHs := Some(AwaitReply(d.ephemeral)))
                           else c.(keys := r.client.keys)
  {
    hide Carried, SealedOne, EncryptSend;
    assert |cfg.noise.write1(d.ephemeral, [])| == 48;
    SealsOne(c.keys.value, c.tag, MSG_REKEY1, cfg.noise.write1(d.ephemeral, []), d);
  }

  /** A server that is not rekeying answers it under code 8, and rekeys whether or not that left. */
  lemma RekeyAnswered(cfg: ServerConfig, s: Server, e: Point, num: nat, d: Draw)
    requires Ideal(cfg.noise) && s.keys.Some? && !s.rekeying
    ensures var r := ServerDispatch(cfg, s, Frame(s.tag, 0x07, num, cfg.noise.write1(e, [])), d);
            && r.server.keys.Some? && r.tun == [] && !r.fatal
            && SealedOne(s.keys.value, r.server.keys.value, r.sends, s.tag, 0x08, cfg.noise.write2(e, d.ephemeral), d)
            && r.server == s.(keys := r.server.keys, rekeying := true, rekeyHs := Some(Pair(e, d.ephemeral)))
  {
    hide Carried, SealedOne, EncryptSend;
    assert cfg.noise.read1(cfg.noise.write1(e, [])) == Some((e, []));
    assert |cfg.noise.write2(e, d.ephemeral)| <= 128;
    SealsOne(s.keys.value, s.tag, MSG_REKEY2, cfg.noise.write2(e, d.ephemeral), d);
  }

  /**
   * A client that awaits it sends message 3 under code 9 and the old keys. If that left it is on the new
   * pair and no longer rekeys; otherwise the handshake is spent.
   */
  lemma RekeyContinued(cfg: ClientConfig, c: Client, es: Point, num: nat, d: Draw)
    requires Ideal(cfg.noise) && c.keys.Some? && c.connected && c.rekeying
    requires c.rekeyHs.Some? && c.rekeyHs.value.AwaitReply?
    ensures var e := c.rekeyHs.value.e;
            var r := ClientDispatch(cfg, c, Frame(c.tag, 0x08, num, cfg.noise.write2(e, es)), d);
            && r.tun == []
            && SealedOne(c.keys.value, AfterSeal(c.keys.value), r.sends, c.tag, 0x09,
                         cfg.noise.write3(e, es, cfg.identity), d)
            && r.client == if d.sendOk
                           then c.(keys := Some(NewKeys(true, Pair(e, es))), rekeying := false, rekeyHs := None)
                           else c.(keys := Some(AfterSeal(c.keys.value)), rekeyHs := Some(Spent))
  {
    hide Carried, EncryptSend, SealedWire;
    var e := c.rekeyHs.value.e;
    assert cfg.noise.read2(e, cfg.noise.write2(e, es)) == Some(es);
    assert |cfg.noise.write3(e, es, cfg.identity)| <= 128;
    SealsOne(c.keys.value, c.tag, MSG_REKEY3, cfg.noise.write3(e, es, cfg.identity), d);
  }

  /** Decoys and unknown codes do nothing at all: 4 to 7 and 9 are for the server, 4, 6 and 8 for the client. */
  lemma OthersIgnored(cfg: Config, s: Server, c: Client, f: Frame, d: Draw)
    ensures s.keys.Some? && f.typ !in {0x04, 0x05, 0x06, 0x07, 0x09} ==> ServerDispatch(cfg.server, s, f, d) == Idle(s)
    ensures c.keys.Some? && c.connected && f.typ !in {0x04, 0x06, 0x08} ==>
              ClientDispatch(cfg.client, c, f, d) == ClientStep(c, [], [])
  {
  }

  // ---- A client and its server ----

  datatype Config = Config(client: ClientConfig, server: ServerConfig)

  /** Both ends speak the same handshake, and it is ideal. */
  ghost predicate Matched(cfg: Config) {
    cfg.client.noise == cfg.server.noise && Ideal(cfg.client.noise)
  }

  /** Types the run loops send on their own account; only the client starts keepalives. */
  predicate Local(typ: Byte, isClient: bool) {
    typ == MSG_DECOY || (isClient && typ == MSG_KEEPALIVE)
  }

  /** The client that has sent handshake message 3, and the server's step when it accepts it: the assignment is due. */
  function Meet(cfg: Config, p: Pair, tag: Tag, ip: nat, d: Draw): (Client, ServerStep) {
    var third := Raw(cfg.client.noise.write3(p.client, p.server, cfg.client.identity));
    (Client(Some(NewKeys(true, p)), tag, false, None, false, None),
     Handshake3(cfg.server, Server(Some(p), None, None, tag, None, false, None), third, _ => true, Some(ip), d))
  }
}
