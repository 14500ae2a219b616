/**
 * Client and server over a network that drops, duplicates, reorders, delays, reflects and injects,
 * as UDP may. Sends can fail, and the server's rekey timer can fire at any moment.
 */
module Lossy {
  import opened Bytes
  import opened IPv4
  import opened Framing
  import opened NoiseXK
  import opened SessionKeys
  import opened Endpoints

  /**
   * `sent` is every datagram ever sent, in either direction; `used` every ephemeral key drawn.
   * `clientPairs` and `serverPairs` are the key pairs each end has installed, oldest first. An end
   * that is gone has closed the connection; its state stays what it was then.
   */
  datatype Net = Net(
    client: Client,
    server: Server,
    sent: set<Wire>,
    used: set<Point>,
    clientPairs: seq<Pair>,
    serverPairs: seq<Pair>,
    clientGone: bool,
    serverGone: bool)

  /**
   * Packets read from either TUN, other local triggers, the end of the connection on either side,
   * politely or not, and the delivery of a datagram. A server that is gone still seals a close of its
   * own, which UDP lets out.
   */
  datatype Step =
    | ClientReads(packet: Bytes, d: Draw)
    | ServerReads(packet: Bytes, d: Draw)
    | ClientSends(typ: Byte, payload: Bytes, d: Draw)
    | ClientRekeys(d: Draw)
    | ServerSends(typ: Byte, payload: Bytes, d: Draw)
    | ServerTimesOut
    | ClientCloses(polite: bool, d: Draw)
    | ServerCloses(polite: bool, d: Draw)
    | ServerFinishes(d: Draw)
    | ToServer(w: Wire, d: Draw)
    | ToClient(w: Wire, d: Draw)

  function Elements(ws: seq<Wire>): set<Wire> {
    set i | 0 <= i < |ws| :: ws[i]
  }

  /** The history of an end whose key pair may have changed to p. */
  function Installed(pairs: seq<Pair>, p: Option<KeyState>): seq<Pair> {
    if p.Some? && (pairs == [] || pairs[|pairs| - 1] != p.value.pair) then pairs + [p.value.pair] else pairs
  }

  function ClientActs(net: Net, r: ClientStep, drawn: set<Point>): Net {
    net.(client := r.client, sent := net.sent + Elements(r.sends), used := net.used + drawn,
         clientPairs := Installed(net.clientPairs, r.client.keys))
  }

  function ServerActs(net: Net, r: ServerStep, drawn: set<Point>): Net {
    net.(server := r.server, sent := net.sent + Elements(r.sends), used := net.used + drawn,
         serverPairs := Installed(net.serverPairs, r.server.keys))
  }

  /** The adversary delivers what was sent, to anyone and as often as it likes, and bytes of its own; it cannot seal. */
  predicate Deliverable(net: Net, w: Wire) {
    w.Box? ==> w in net.sent
  }

  /** Steps an end takes on its own account. */
  predicate OfClient(step: Step) {
    step.ClientReads? || step.ClientSends? || step.ClientRekeys? || step.ClientCloses?
  }

  predicate OfServer(step: Step) {
    step.ServerReads? || step.ServerSends? || step.ServerTimesOut? || step.ServerCloses? || step.ServerFinishes?
  }

  /** The end that would take the step is gone; or it is there, and the step is that last close. */
  predicate Absent(net: Net, step: Step) {
    if OfClient(step) || step.ToClient? then net.clientGone else net.serverGone != step.ServerFinishes?
  }

  /** The step would have Seal slice its buffer too far, which panics, whether or not Send then succeeds. */
  predicate Panics(cfg: Config, net: Net, step: Step) {
    match step
    case ClientReads(packet, d) => !InBuffer(ClientPacket(cfg.client, net.client, packet, Sure(d)).sends)
    case ServerReads(packet, d) => !InBuffer(ServerPacket(net.server, packet, Sure(d)).sends)
    case ClientSends(typ, payload, d) => !InBuffer(ClientSend(net.client, typ, payload, Sure(d)).sends)
    case ClientRekeys(d) => !InBuffer(StartRekey(cfg.client, net.client, Sure(d)).sends)
    case ServerSends(typ, payload, d) => !InBuffer(ServerSend(net.server, typ, payload, Sure(d)).sends)
    case ServerTimesOut => false
    case ClientCloses(polite, d) => polite && !InBuffer(ClientSend(net.client, MSG_CLOSE, [], Sure(d)).sends)
    case ServerCloses(polite, d) => polite && !InBuffer(ServerSend(net.server, MSG_CLOSE, [], Sure(d)).sends)
    case ServerFinishes(d) => !InBuffer(ServerSend(net.server, MSG_CLOSE, [], Sure(d)).sends)
    case ToServer(w, d) => net.server.keys.Some? && Overruns(cfg.server, net.server, w, d)
    case ToClient(w, d) => !InBuffer(ClientReceive(cfg.client, net.client, w, Sure(d)).sends)
  }

  /** The client handles a datagram; if that makes it tear the connection down, it is gone. */
  function ClientTakes(cfg: Config, net: Net, w: Wire, d: Draw): Net {
    var r := ClientReceive(cfg.client, net.client, w, d);
    if net.client.keys.None? || r.client.keys.Some? then ClientActs(net, r, {})
    else net.(client := net.client.(keys := Some(OpenWire(net.client.keys.value, w).0)), clientGone := true)
  }

  function ServerTakes(cfg: Config, net: Net, w: Wire, d: Draw): Net
    requires net.server.keys.Some?
  {
    var r := ServerReceive(cfg.server, net.server, w, d);
    if r.server.rekeying && !net.server.rekeying then
      if d.ephemeral !in net.used then ServerActs(net, r, {d.ephemeral}) else net
    else ServerActs(net, r, {}).(serverGone := net.serverGone || r.fatal)
  }

  /** A step that is not enabled leaves the net as it is; an ephemeral key is never drawn twice. */
  function Act(cfg: Config, net: Net, step: Step): Net {
    match step
    case ClientReads(packet, d) =>
      if net.client.connected && |packet| < TWO16 then
        ClientActs(net, ClientPacket(cfg.client, net.client, packet, d), {})
      else net
    case ServerReads(packet, d) =>
      if |packet| < TWO16 then ServerActs(net, ServerPacket(net.server, packet, d), {}) else net
    case ClientSends(typ, payload, d) =>
      if net.client.connected && Local(typ, true) && |payload| < TWO16 then
        ClientActs(net, ClientSend(net.client, typ, payload, d), {})
      else net
    case ClientRekeys(d) =>
      if d.ephemeral !in net.used then ClientActs(net, StartRekey(cfg.client, net.client, d), {d.ephemeral}) else net
    case ServerSends(typ, payload, d) =>
      if Local(typ, false) && |payload| < TWO16 then
        ServerActs(net, ServerSend(net.server, typ, payload, d), {})
      else net
    case ServerTimesOut => net.(server := RekeyTimeout(net.server))
    case ClientCloses(polite, d) =>
      (if polite && net.client.connected then ClientActs(net, ClientSend(net.client, MSG_CLOSE, [], d), {}) else net)
      .(clientGone := true)
    case ServerCloses(polite, d) =>
      (if polite then ServerActs(net, ServerSend(net.server, MSG_CLOSE, [], d), {}) else net).(serverGone := true)
    case ServerFinishes(d) => ServerActs(net, ServerSend(net.server, MSG_CLOSE, [], d), {})
    case ToServer(w, d) => if Deliverable(net, w) && net.server.keys.Some? then ServerTakes(cfg, net, w, d) else net
    case ToClient(w, d) => if Deliverable(net, w) then ClientTakes(cfg, net, w, d) else net
  }

  /** A panic ends the process, so no run goes on with a step that panics. */
  function Apply(cfg: Config, net: Net, step: Step): Net {
    if Absent(net, step) || Panics(cfg, net, step) then net else Act(cfg, net, step)
  }

  function Run(cfg: Config, net: Net, steps: seq<Step>): Net {
    if steps == [] then net else Apply(cfg, Run(cfg, net, steps[..|steps| - 1]), steps[|steps| - 1])
  }

  /** Handshake message 3 has been accepted; the assignment may or may not have left. */
  function Begin(cfg: Config, p: Pair, tag: Tag, ip: nat, d: Draw): Net {
    var (c, r) := Meet(cfg, p, tag, ip, d);
    Net(c, r.server, Elements(r.sends), {p.client, p.server}, [p], [p], false, false)
  }

  // ---- What every reachable net satisfies ----

  function Last(pairs: seq<Pair>): Pair
    requires pairs != []
  {
    pairs[|pairs| - 1]
  }

  ghost predicate Distinct(pairs: seq<Pair>) {
    forall i, j :: 0 <= i < j < |pairs| ==> pairs[i].client != pairs[j].client
  }

  /** The server's key history is the client's, except that the client may be one pair ahead. */
  ghost predicate Epochs(net: Net) {
    && net.serverPairs != []
    && net.serverPairs <= net.clientPairs
    && |net.clientPairs| <= |net.serverPairs| + 1
    && Distinct(net.clientPairs)
  }

  ghost predicate Ends(cfg: Config, net: Net)
    requires Epochs(net)
  {
    && net.client.keys.Some? && net.client.keys.value.isClient
    && net.server.keys.Some? && !net.server.keys.value.isClient
    && net.client.keys.value.pair == Last(net.clientPairs)
    && net.server.keys.value.pair == Last(net.serverPairs)
    && net.client.tag == net.server.tag
    && net.server.clientKey == Some(cfg.client.identity)
  }

  /** The payload is message 3 of the handshake whose pair the client installed right after `p`. */
  ghost predicate Follows(cfg: Config, pairs: seq<Pair>, p: Pair, payload: Bytes) {
    exists j :: 0 <= j < |pairs| - 1 && pairs[j] == p
             && payload == cfg.client.noise.write3(pairs[j + 1].client, pairs[j + 1].server, cfg.client.identity)
  }

  ghost predicate Reply(cfg: Config, used: set<Point>, payload: Bytes) {
    exists e: Point, s: Point :: s in used && payload == cfg.client.noise.write2(e, s)
  }

  /** Each box was sealed by one of the two ends under a key that end had installed. */
  ghost predicate Known(cfg: Config, tag: Tag, cp: seq<Pair>, sp: seq<Pair>, used: set<Point>, w: Wire) {
    w.Box? ==>
      && Offered(w.key, w) == Some(Carried(w))
      && Carried(w).tag == tag
      && (if w.key.toServer then
            && w.key.pair in cp
            && (Carried(w).typ == MSG_REKEY3 ==> Follows(cfg, cp, w.key.pair, Carried(w).payload))
          else
            && w.key.pair in sp
            && (Carried(w).typ == MSG_REKEY2 ==> Reply(cfg, used, Carried(w).payload))
            && (Carried(w).typ == MSG_ASSIGN ==> |Carried(w).payload| == 9))
  }

  ghost predicate Traffic(cfg: Config, net: Net) {
    forall w :: w in net.sent ==> Known(cfg, net.client.tag, net.clientPairs, net.serverPairs, net.used, w)
  }

  /** Ephemeral keys of installed and pending handshakes have been drawn, and the pending one is new. */
  ghost predicate Drawn(net: Net) {
    && (forall i :: 0 <= i < |net.clientPairs| ==>
          net.clientPairs[i].client in net.used && net.clientPairs[i].server in net.used)
    && (net.client.rekeyHs.Some? && net.client.rekeyHs.value.AwaitReply? ==>
          && net.client.rekeyHs.value.e in net.used
          && forall i :: 0 <= i < |net.clientPairs| ==> net.clientPairs[i].client != net.client.rekeyHs.value.e)
  }

  ghost predicate Inv(cfg: Config, net: Net) {
    Epochs(net) && Ends(cfg, net) && Traffic(cfg, net) && Drawn(net)
  }

  lemma KnownGrows(cfg: Config, tag: Tag, cp: seq<Pair>, sp: seq<Pair>, used: set<Point>,
                   cp': seq<Pair>, sp': seq<Pair>, used': set<Point>, w: Wire)
    requires Known(cfg, tag, cp, sp, used, w)
    requires cp <= cp' && sp <= sp' && used <= used'
    ensures Known(cfg, tag, cp', sp', used', w)
  {
    hide Offered, Carried;
    if w.Box? && w.key.toServer && Carried(w).typ == MSG_REKEY3 {
      var j :| 0 <= j < |cp| - 1 && cp[j] == w.key.pair
               && Carried(w).payload
                  == cfg.client.noise.write3(cp[j + 1].client, cp[j + 1].server, cfg.client.identity);
      assert cp'[j] == cp[j] && cp'[j + 1] == cp[j + 1];
    }
  }

  lemma TrafficGrows(cfg: Config, net: Net, net': Net)
    requires Traffic(cfg, net) && net'.client.tag == net.client.tag
    requires net.clientPairs <= net'.clientPairs && net.serverPairs <= net'.serverPairs && net.used <= net'.used
    requires forall w :: w in net'.sent ==>
               w in net.sent || Known(cfg, net'.client.tag, net'.clientPairs, net'.serverPairs, net'.used, w)
    ensures Traffic(cfg, net')
  {
    hide Known;
    forall w | w in net'.sent
      ensures Known(cfg, net'.client.tag, net'.clientPairs, net'.serverPairs, net'.used, w)
    {
      if w in net.sent {
        KnownGrows(cfg, net.client.tag, net.clientPairs, net.serverPairs, net.used,
                   net'.clientPairs, net'.serverPairs, net'.used, w);
      }
    }
  }

  /** What a client seals under its current pair, other than a message 3. */
  lemma ClientSeals(cfg: Config, net: Net, k: KeyState, m: Message)
    requires Epochs(net) && Ends(cfg, net) && k.SendKey() == net.client.keys.value.SendKey()
    requires m.tag == net.client.tag && |m.payload| < TWO16 && m.typ != MSG_REKEY3
    ensures Known(cfg, net.client.tag, net.clientPairs, net.serverPairs, net.used, SealedWire(k, m))
  {
    hide Offered, Carried, SealedWire;
    CarriedSealed(k, m);
  }

  lemma ClientSendKeeps(cfg: Config, net: Net, typ: Byte, payload: Bytes, d: Draw)
    requires Inv(cfg, net) && |payload| < TWO16 && typ != MSG_REKEY3
    ensures Inv(cfg, ClientActs(net, ClientSend(net.client, typ, payload, d), {}))
  {
    hide Offered, Carried, SealedWire, Known;
    ClientSeals(cfg, net, net.client.keys.value, Message(d.nonce, net.client.tag, typ, payload, d.padding));
    assert net.used + {} == net.used;
    TrafficGrows(cfg, net, ClientActs(net, ClientSend(net.client, typ, payload, d), {}));
  }

  lemma ClientRekeysKeeps(cfg: Config, net: Net, d: Draw)
    requires Matched(cfg) && Inv(cfg, net)
    ensures Inv(cfg, Act(cfg, net, ClientRekeys(d)))
  {
    hide Offered, Carried, SealedWire, Known;
    if d.ephemeral !in net.used {
      var k := net.client.keys.value;
      var msg := cfg.client.noise.write1(d.ephemeral, []);
      assert |msg| == 48;
      var net' := Act(cfg, net, ClientRekeys(d));
      ClientSeals(cfg, net.(used := net'.used), k, Message(d.nonce, net.client.tag, MSG_REKEY1, msg, d.padding));
      TrafficGrows(cfg, net, net');
    }
  }

  /** What a server seals under its current pair. */
  lemma ServerSeals(cfg: Config, net: Net, k: KeyState, m: Message, used: set<Point>)
    requires Epochs(net) && Ends(cfg, net) && k.SendKey() == net.server.keys.value.SendKey()
    requires m.tag == net.client.tag && |m.payload| < TWO16 && m.typ != MSG_ASSIGN
    requires m.typ == MSG_REKEY2 ==> Reply(cfg, used, m.payload)
    ensures Known(cfg, net.client.tag, net.clientPairs, net.serverPairs, used, SealedWire(k, m))
  {
    hide Offered, Carried, SealedWire, Reply;
    CarriedSealed(k, m);
  }

  /** A server step that keeps the key pair and sends known frames keeps the invariant. */
  lemma ServerActsKeeps(cfg: Config, net: Net, r: ServerStep, drawn: set<Point>)
    requires Inv(cfg, net)
    requires r.server.keys.Some? && r.server.keys.value.SendKey() == net.server.keys.value.SendKey()
    requires r.server.tag == net.server.tag && r.server.clientKey == net.server.clientKey
    requires forall i :: 0 <= i < |r.sends| ==>
               Known(cfg, net.client.tag, net.clientPairs, net.serverPairs, net.used + drawn, r.sends[i])
    ensures Inv(cfg, ServerActs(net, r, drawn))
    ensures ServerActs(net, r, drawn).serverPairs == net.serverPairs
  {
    hide Known;
    TrafficGrows(cfg, net, ServerActs(net, r, drawn));
  }

  lemma ServerSendKeeps(cfg: Config, net: Net, typ: Byte, payload: Bytes, d: Draw)
    requires Inv(cfg, net) && |payload| < TWO16 && typ != MSG_ASSIGN && typ != MSG_REKEY2
    ensures Inv(cfg, ServerActs(net, ServerSend(net.server, typ, payload, d), {}))
  {
    hide Offered, Carried, SealedWire, Known;
    ServerSeals(cfg, net, net.server.keys.value, Message(d.nonce, net.client.tag, typ, payload, d.padding), net.used);
    assert net.used + {} == net.used;
    TrafficGrows(cfg, net, ServerActs(net, ServerSend(net.server, typ, payload, d), {}));
  }

  /** That an end is gone changes nothing else. */
  lemma GoneKeeps(cfg: Config, net: Net, client: bool, server: bool)
    requires Inv(cfg, net)
    ensures Inv(cfg, net.(clientGone := client, serverGone := server))
  {
    hide Known;
  }

  /** What opens at an end was sent to it, under the pair that end holds. */
  lemma OpenedAtServer(cfg: Config, net: Net, w: Wire)
    requires Inv(cfg, net) && Deliverable(net, w)
    requires OpenWire(net.server.keys.value, w).1.Opened?
    ensures w in net.sent && w.Box? && w.key == Key(Last(net.serverPairs), true)
    ensures OpenWire(net.server.keys.value, w).1 == Opened(Carried(w))
    ensures var k := OpenWire(net.server.keys.value, w).0;
            k == net.server.keys.value.(replay := k.replay)
  {
    hide Carried, ParseInner, OpenWire;
    OpenStep(net.server.keys.value, w);
    assert Known(cfg, net.client.tag, net.clientPairs, net.serverPairs, net.used, w);
  }

  lemma OpenedAtClient(cfg: Config, net: Net, w: Wire)
    requires Inv(cfg, net) && Deliverable(net, w)
    requires OpenWire(net.client.keys.value, w).1.Opened?
    ensures w in net.sent && w.Box? && w.key == Key(Last(net.clientPairs), false)
    ensures OpenWire(net.client.keys.value, w).1 == Opened(Carried(w))
    ensures var k := OpenWire(net.client.keys.value, w).0;
            k == net.client.keys.value.(replay := k.replay)
  {
    hide Carried, ParseInner, OpenWire;
    OpenStep(net.client.keys.value, w);
    assert Known(cfg, net.client.tag, net.clientPairs, net.serverPairs, net.used, w);
  }

  /** A message 3 under the server's current pair belongs to the pair that the client installed next. */
  lemma NextPair(cfg: Config, net: Net, w: Wire)
    requires Inv(cfg, net) && w in net.sent && w.Box? && w.key == Key(Last(net.serverPairs), true)
    requires Carried(w).typ == MSG_REKEY3
    ensures |net.clientPairs| == |net.serverPairs| + 1
    ensures Carried(w).payload
         == cfg.client.noise.write3(Last(net.clientPairs).client, Last(net.clientPairs).server, cfg.client.identity)
  {
    hide Carried, Offered;
    var cp, sp := net.clientPairs, net.serverPairs;
    assert Known(cfg, net.client.tag, cp, sp, net.used, w);
    var j :| 0 <= j < |cp| - 1 && cp[j] == w.key.pair
             && Carried(w).payload == cfg.client.noise.write3(cp[j + 1].client, cp[j + 1].server, cfg.client.identity);
    assert cp[|sp| - 1] == Last(sp);
    assert cp[j].client == cp[|sp| - 1].client;
  }

  /** What message 3 makes of a server: on to the new pair, or out of the rekey, or nothing. */
  lemma Rekey3Server(cfg: ServerConfig, s: Server, w: Wire, d: Draw)
    requires s.keys.Some? && OpenWire(s.keys.value, w).1 == Opened(Carried(w)) && Carried(w).typ == MSG_REKEY3
    ensures var r, f := ServerReceive(cfg, s, w, d), Carried(w);
            var now := s.(keys := Some(OpenWire(s.keys.value, w).0));
            && r.sends == [] && !r.fatal
            && r.server == if f.tag != s.tag || !s.rekeying || s.rekeyHs.None? then now
                           else if cfg.noise.read3(s.rekeyHs.value.client, s.rekeyHs.value.server, f.payload).Some?
                                   && cfg.noise.read3(s.rekeyHs.value.client, s.rekeyHs.value.server, f.payload)
                                      == s.clientKey
                           then AbortRekey(s).(keys := Some(NewKeys(false, s.rekeyHs.value)))
                           else AbortRekey(now)
  {
    hide Carried, OpenWire, Parse;
  }

  lemma ToServerRekey3(cfg: Config, net: Net, w: Wire, d: Draw)
    requires Matched(cfg) && Inv(cfg, net) && Deliverable(net, w)
    requires OpenWire(net.server.keys.value, w).1.Opened? && Carried(w).typ == MSG_REKEY3
    ensures Inv(cfg, Act(cfg, net, ToServer(w, d)))
    ensures net.server.rekeying && net.server.rekeyHs == Some(Last(net.clientPairs))
            && Carried(w).tag == net.server.tag ==>
              Act(cfg, net, ToServer(w, d)).serverPairs == net.clientPairs
    ensures !(net.server.rekeying && net.server.rekeyHs == Some(Last(net.clientPairs))) ==>
              Act(cfg, net, ToServer(w, d)).serverPairs == net.serverPairs
  {
    hide Offered, Carried, OpenWire, Known, ServerReceive;
    OpenedAtServer(cfg, net, w);
    NextPair(cfg, net, w);
    Rekey3Server(cfg.server, net.server, w, d);
    var net' := Act(cfg, net, ToServer(w, d));
    var next := Last(net.clientPairs);
    assert net.used + {} == net.used && net.sent + {} == net.sent;
    assert next != Last(net.serverPairs) by {
      assert net.clientPairs[|net.serverPairs| - 1] == Last(net.serverPairs);
    }
    if net.server.rekeying && net.server.rekeyHs.Some? && Carried(w).tag == net.server.tag {
      var p := net.server.rekeyHs.value;
      var key := cfg.server.noise.read3(p.client, p.server, Carried(w).payload);
      if key.Some? {
        assert Carried(w).payload == cfg.server.noise.write3(p.client, p.server, key.value);
        assert p == next;
      }
      if p == next {
        assert key == Some(cfg.client.identity);
        assert net.serverPairs + [next] == net.clientPairs;
      }
    }
    TrafficGrows(cfg, net, net');
  }

  /** The server takes up a rekey: message 1, with the session's tag, while none is under way. */
  predicate TakesUp(cfg: ServerConfig, s: Server, f: Frame) {
    f.tag == s.tag && !s.rekeying && cfg.noise.read1(f.payload).Some?
  }

  function TakenUp(cfg: ServerConfig, s: Server, f: Frame, d: Draw): (Pair, Message)
    requires TakesUp(cfg, s, f)
  {
    var p := Pair(cfg.noise.read1(f.payload).value.0, d.ephemeral);
    (p, Message(d.nonce, s.tag, MSG_REKEY2, cfg.noise.write2(p.client, p.server), d.padding))
  }

  lemma Rekey1Server(cfg: ServerConfig, s: Server, w: Wire, d: Draw)
    requires s.keys.Some? && OpenWire(s.keys.value, w).1 == Opened(Carried(w)) && Carried(w).typ == MSG_REKEY1
    ensures var r, k := ServerReceive(cfg, s, w, d), OpenWire(s.keys.value, w).0;
            && !r.fatal
            && if TakesUp(cfg, s, Carried(w)) then
                 var (p, m) := TakenUp(cfg, s, Carried(w), d);
                 && r.server == s.(keys := Some(AfterSeal(k)), rekeying := true, rekeyHs := Some(p))
                 && r.sends == if d.sendOk then [SealedWire(k, m)] else []
               else r.server == s.(keys := Some(k)) && r.sends == []
  {
    hide Carried, OpenWire, SealedWire, Parse;
  }

  /** Any other frame leaves the server's key pair alone; message 1 may be answered, a keepalive echoed. */
  lemma ToServerRekey1(cfg: Config, net: Net, w: Wire, d: Draw)
    requires Matched(cfg) && Inv(cfg, net) && Deliverable(net, w)
    requires OpenWire(net.server.keys.value, w).1.Opened? && Carried(w).typ == MSG_REKEY1
    ensures Inv(cfg, Act(cfg, net, ToServer(w, d)))
    ensures Act(cfg, net, ToServer(w, d)).serverPairs == net.serverPairs
  {
    hide Carried, OpenWire, SealedWire, Known, Reply, Traffic, Drawn, ServerActs, ServerReceive;
    OpenedAtServer(cfg, net, w);
    Rekey1Server(cfg.server, net.server, w, d);
    var r := ServerReceive(cfg.server, net.server, w, d);
    if TakesUp(cfg.server, net.server, Carried(w)) {
      if d.ephemeral !in net.used {
        var (p, m) := TakenUp(cfg.server, net.server, Carried(w), d);
        var used := net.used + {d.ephemeral};
        assert |m.payload| <= 128;
        IsReply(cfg, used, p.client, d.ephemeral);
        ServerSeals(cfg, net, OpenWire(net.server.keys.value, w).0, m, used);
        ServerActsKeeps(cfg, net, r, {d.ephemeral});
      }
    } else {
      ServerActsKeeps(cfg, net, r, {});
      ServerActsGone(net, r);
      GoneKeeps(cfg, ServerActs(net, r, {}), net.clientGone, net.serverGone || r.fatal);
    }
  }

  lemma IsReply(cfg: Config, used: set<Point>, e: Point, s: Point)
    requires s in used
    ensures Reply(cfg, used, cfg.client.noise.write2(e, s))
  {
  }

  lemma OtherServer(cfg: ServerConfig, s: Server, w: Wire, d: Draw)
    requires s.keys.Some? && OpenWire(s.keys.value, w).1 == Opened(Carried(w))
    requires Carried(w).typ != MSG_REKEY3 && Carried(w).typ != MSG_REKEY1
    ensures var r, k := ServerReceive(cfg, s, w, d), OpenWire(s.keys.value, w).0;
            || (r.server == s.(keys := Some(k)) && r.sends == [])
            || (r.server == s.(keys := Some(AfterSeal(k)))
                && (r.sends == []
                    || r.sends
                       == [SealedWire(k, Message(d.nonce, s.tag, MSG_KEEPALIVE, Carried(w).payload, d.padding))]))
  {
    hide Carried, OpenWire, SealedWire, Parse;
  }

  lemma ToServerOther(cfg: Config, net: Net, w: Wire, d: Draw)
    requires Matched(cfg) && Inv(cfg, net) && Deliverable(net, w)
    requires OpenWire(net.server.keys.value, w).1.Opened?
    requires Carried(w).typ != MSG_REKEY3 && Carried(w).typ != MSG_REKEY1
    ensures Inv(cfg, Act(cfg, net, ToServer(w, d)))
    ensures Act(cfg, net, ToServer(w, d)).serverPairs == net.serverPairs
  {
    hide Carried, OpenWire, SealedWire, Known, Traffic, Drawn, ServerActs, ServerReceive;
    OpenedAtServer(cfg, net, w);
    OtherServer(cfg.server, net.server, w, d);
    var f, k, tag := Carried(w), OpenWire(net.server.keys.value, w).0, net.client.tag;
    assert net.used + {} == net.used;
    assert |f.payload| < TWO16 by {
      OpenStep(net.server.keys.value, w);
      OfferedBounded(w.key, w);
    }
    ServerSeals(cfg, net, k, Message(d.nonce, tag, MSG_KEEPALIVE, f.payload, d.padding), net.used);
    var r := ServerReceive(cfg.server, net.server, w, d);
    ServerActsKeeps(cfg, net, r, {});
    ServerActsGone(net, r);
    GoneKeeps(cfg, ServerActs(net, r, {}), net.clientGone, net.serverGone || r.fatal);
  }

  lemma ServerActsGone(net: Net, r: ServerStep)
    ensures ServerActs(net, r, {}).clientGone == net.clientGone
  {
  }

  // ---- What local steps of the client do to the net ----

  /** The client kept its pair, sealed m if anything, and changed nothing of the server's. */
  predicate ClientSealed(net: Net, net': Net, m: Message)
    requires net.client.keys.Some? && net'.client.keys.Some?
  {
    var k, k' := net.client.keys.value, net'.client.keys.value;
    && net'.server == net.server && net'.serverPairs == net.serverPairs && net'.serverGone == net.serverGone
    && net'.clientPairs == net.clientPairs && k'.SendKey() == k.SendKey() && k'.replay == k.replay
    && (|| (k'.sendSeq == k.sendSeq && net'.sent == net.sent)
        || (k'.sendSeq == AfterSeal(k).sendSeq
            && (net'.sent == net.sent || net'.sent == net.sent + {SealedWire(k, m)})))
  }

  lemma ElementsOne(w: Wire)
    ensures Elements([w]) == {w}
  {
    assert [w][0] == w;
  }

  lemma ClientActsSealed(net: Net, r: ClientStep, drawn: set<Point>, m: Message)
    requires net.client.keys.Some? && r.client.keys.Some? && net.clientPairs != []
    requires net.client.keys.value.pair == Last(net.clientPairs)
    requires var k, k' := net.client.keys.value, r.client.keys.value;
             && k'.SendKey() == k.SendKey() && k'.replay == k.replay
             && (|| (k'.sendSeq == k.sendSeq && r.sends == [])
                 || (k'.sendSeq == AfterSeal(k).sendSeq && (r.sends == [] || r.sends == [SealedWire(k, m)])))
    ensures ClientSealed(net, ClientActs(net, r, drawn), m)
  {
    hide SealedWire;
    ElementsOne(SealedWire(net.client.keys.value, m));
    assert net.sent + Elements([]) == net.sent;
  }

  lemma ClientSealedGone(net: Net, net': Net, client: bool, m: Message)
    requires net.client.keys.Some? && net'.client.keys.Some?
    ensures ClientSealed(net, net'.(clientGone := client), m) == ClientSealed(net, net', m)
  {
  }

  lemma ClientSealedNothing(net: Net, m: Message)
    requires net.client.keys.Some?
    ensures ClientSealed(net, net, m)
  {
  }

  /** The message that a local step of the client's asks to have sealed. */
  function ClientMessage(cfg: Config, net: Net, step: Step): Message
    requires OfClient(step)
  {
    match step
    case ClientReads(packet, d) => Message(d.nonce, net.client.tag, MSG_DATA, packet, d.padding)
    case ClientSends(typ, payload, d) => Message(d.nonce, net.client.tag, typ, payload, d.padding)
    case ClientRekeys(d) =>
      Message(d.nonce, net.client.tag, MSG_REKEY1, cfg.client.noise.write1(d.ephemeral, []), d.padding)
    case ClientCloses(_, d) => Message(d.nonce, net.client.tag, MSG_CLOSE, [], d.padding)
  }

  lemma ClientLocalEffect(cfg: Config, net: Net, step: Step)
    requires Inv(cfg, net) && OfClient(step)
    ensures var net' := Act(cfg, net, step);
            && net'.client.keys.Some? && ClientSealed(net, net', ClientMessage(cfg, net, step))
            && net'.server == net.server && net'.clientPairs == net.clientPairs
            && (step.ClientRekeys? || net'.client == net.client.(keys := net'.client.keys))
  {
    hide SealedWire, Traffic, Drawn, ClientSealed, ClientActs;
    var m := ClientMessage(cfg, net, step);
    ClientSealedNothing(net, m);
    match step
    case ClientReads(packet, d) =>
      ClientReadsAct(cfg, net, packet, d);
      ClientActsSealed(net, ClientSend(net.client, MSG_DATA, packet, d), {}, m);
      ClientActsClient(net, ClientSend(net.client, MSG_DATA, packet, d), {});
    case ClientSends(typ, payload, d) =>
      ClientActsSealed(net, ClientSend(net.client, typ, payload, d), {}, m);
      ClientActsClient(net, ClientSend(net.client, typ, payload, d), {});
    case ClientRekeys(d) =>
      ClientActsSealed(net, StartRekey(cfg.client, net.client, d), {d.ephemeral}, m);
      ClientActsClient(net, StartRekey(cfg.client, net.client, d), {d.ephemeral});
    case ClientCloses(polite, d) =>
      var r := ClientSend(net.client, MSG_CLOSE, [], d);
      ClientActsSealed(net, r, {}, m);
      ClientActsClient(net, r, {});
      ClientSealedGone(net, if polite && net.client.connected then ClientActs(net, r, {}) else net, true, m);
  }

  /** A packet is sent as data, or nothing happens. */
  lemma ClientReadsAct(cfg: Config, net: Net, packet: Bytes, d: Draw)
    requires Inv(cfg, net)
    ensures var net' := Act(cfg, net, ClientReads(packet, d));
            net' == net || net' == ClientActs(net, ClientSend(net.client, MSG_DATA, packet, d), {})
  {
    hide ClientSend, IsIPv4, Traffic, Drawn;
    assert net.sent + Elements([]) == net.sent && net.used + {} == net.used;
  }

  lemma ServerReadsAct(cfg: Config, net: Net, packet: Bytes, d: Draw)
    requires Inv(cfg, net)
    ensures var net' := Act(cfg, net, ServerReads(packet, d));
            || net' == net
            || (|packet| < TWO16 && net' == ServerActs(net, ServerSend(net.server, MSG_DATA, packet, d), {}))
  {
    hide ServerSend, Traffic, Drawn;
    assert net.sent + Elements([]) == net.sent && net.used + {} == net.used;
  }

  lemma ClientActsClient(net: Net, r: ClientStep, drawn: set<Point>)
    requires r.client.keys.Some? && net.clientPairs != [] && r.client.keys.value.pair == Last(net.clientPairs)
    ensures var net' := ClientActs(net, r, drawn);
            net'.client == r.client && net'.server == net.server && net'.clientPairs == net.clientPairs
  {
  }

  // ---- What the server's steps do to the net ----

  /** The server kept its pair, sealed m if anything, and changed nothing of the client's. */
  predicate ServerSealed(net: Net, net': Net, m: Message)
    requires net.server.keys.Some? && net'.server.keys.Some?
  {
    var k, k' := net.server.keys.value, net'.server.keys.value;
    && net'.client == net.client && net'.clientPairs == net.clientPairs && net'.clientGone == net.clientGone
    && net'.serverPairs == net.serverPairs && k'.SendKey() == k.SendKey() && k'.isClient == k.isClient
    && (|| (k'.sendSeq == k.sendSeq && net'.sent == net.sent)
        || (k'.sendSeq == AfterSeal(k).sendSeq
            && (net'.sent == net.sent || net'.sent == net.sent + {SealedWire(k, m)})))
  }

  lemma ServerActsSealed(net: Net, r: ServerStep, drawn: set<Point>, m: Message)
    requires net.server.keys.Some? && r.server.keys.Some? && net.serverPairs != []
    requires net.server.keys.value.pair == Last(net.serverPairs)
    requires var k, k' := net.server.keys.value, r.server.keys.value;
             && k'.SendKey() == k.SendKey() && k'.isClient == k.isClient
             && (|| (k'.sendSeq == k.sendSeq && r.sends == [])
                 || (k'.sendSeq == AfterSeal(k).sendSeq && (r.sends == [] || r.sends == [SealedWire(k, m)])))
    ensures ServerSealed(net, ServerActs(net, r, drawn), m)
  {
    hide SealedWire;
    ElementsOne(SealedWire(net.server.keys.value, m));
    assert net.sent + Elements([]) == net.sent;
  }

  lemma ServerSendEffect(cfg: Config, net: Net, typ: Byte, payload: Bytes, d: Draw)
    requires Inv(cfg, net)
    ensures var net' := ServerActs(net, ServerSend(net.server, typ, payload, d), {});
            && net'.server.keys.Some?
            && ServerSealed(net, net', Message(d.nonce, net.server.tag, typ, payload, d.padding))
            && net'.server == net.server.(keys := net'.server.keys)
            && net'.server.keys.value.replay == net.server.keys.value.replay
            && net'.serverGone == net.serverGone && net'.used == net.used && net'.clientPairs == net.clientPairs
  {
    hide SealedWire, Traffic, Drawn, ServerSealed;
    assert net.used + {} == net.used;
    ServerActsSealed(net, ServerSend(net.server, typ, payload, d), {},
                     Message(d.nonce, net.server.tag, typ, payload, d.padding));
  }

  lemma SameSeal(k: KeyState, k': KeyState, m: Message)
    requires k'.SendKey() == k.SendKey() && k'.sendSeq == k.sendSeq
    ensures SealedWire(k', m) == SealedWire(k, m)
  {
  }

  /** The reply that a frame other than message 3 may get: message 2 or an echo. */
  function ReplyTo(cfg: Config, s: Server, w: Wire, d: Draw): Message {
    if Carried(w).typ == MSG_REKEY1 && TakesUp(cfg.server, s, Carried(w)) then TakenUp(cfg.server, s, Carried(w), d).1
    else Message(d.nonce, s.tag, MSG_KEEPALIVE, Carried(w).payload, d.padding)
  }

  /** What such a frame does: the window moves, and at most that reply is sealed. */
  lemma ToServerEffect(cfg: Config, net: Net, w: Wire, d: Draw)
    requires Inv(cfg, net) && Deliverable(net, w)
    requires OpenWire(net.server.keys.value, w).1.Opened? && Carried(w).typ != MSG_REKEY3
    ensures var net' := Act(cfg, net, ToServer(w, d));
            && net'.server.keys.Some? && ServerSealed(net, net', ReplyTo(cfg, net.server, w, d))
            && (net' == net || net'.server.keys.value.replay == OpenWire(net.server.keys.value, w).0.replay)
  {
    hide Carried, OpenWire, SealedWire, Traffic, Drawn, ServerReceive, ServerSealed;
    OpenedAtServer(cfg, net, w);
    var s, k, r := net.server, OpenWire(net.server.keys.value, w).0, ServerReceive(cfg.server, net.server, w, d);
    var m := ReplyTo(cfg, s, w, d);
    if Carried(w).typ == MSG_REKEY1 {
      Rekey1Server(cfg.server, s, w, d);
    } else {
      OtherServer(cfg.server, s, w, d);
    }
    SameSeal(s.keys.value, k, m);
    ServerActsSealed(net, r, if r.server.rekeying && !s.rekeying then {d.ephemeral} else {}, m);
    SealedNothing(net, m);
    SealedGone(net, ServerActs(net, r, {}), net.serverGone || r.fatal, m);
  }

  lemma SealedNothing(net: Net, m: Message)
    requires net.server.keys.Some?
    ensures ServerSealed(net, net, m)
  {
  }

  lemma SealedGone(net: Net, net': Net, server: bool, m: Message)
    requires net.server.keys.Some? && net'.server.keys.Some?
    ensures ServerSealed(net, net'.(serverGone := server), m) == ServerSealed(net, net', m)
  {
  }

  lemma ToServerKeeps(cfg: Config, net: Net, w: Wire, d: Draw)
    requires Matched(cfg) && Inv(cfg, net)
    ensures Inv(cfg, Act(cfg, net, ToServer(w, d)))
  {
    hide Carried, OpenWire, Known, Traffic, Drawn;
    if Deliverable(net, w) {
      if OpenWire(net.server.keys.value, w).1.Opened? {
        if Carried(w).typ == MSG_REKEY3 {
          ToServerRekey3(cfg, net, w, d);
        } else if Carried(w).typ == MSG_REKEY1 {
          ToServerRekey1(cfg, net, w, d);
        } else {
          ToServerOther(cfg, net, w, d);
        }
      } else {
        RefusedAtServer(cfg, net, w, d);
      }
    }
  }

  lemma RefusedAtServer(cfg: Config, net: Net, w: Wire, d: Draw)
    requires Inv(cfg, net) && OpenWire(net.server.keys.value, w).1.Refused?
    ensures Act(cfg, net, ToServer(w, d)) == net
  {
    hide OpenWire, Traffic, Drawn;
    assert net.used + {} == net.used && net.sent + Elements([]) == net.sent;
  }

  lemma RefusedAtClient(cfg: Config, net: Net, w: Wire, d: Draw)
    requires Inv(cfg, net) && OpenWire(net.client.keys.value, w).1.Refused?
    ensures Act(cfg, net, ToClient(w, d)) == net
  {
    hide OpenWire, Traffic, Drawn;
    assert net.used + {} == net.used && net.sent + Elements([]) == net.sent;
  }

  /** The server holds the client's pair if it sealed anything under it. */
  lemma HeardMeansLevel(cfg: Config, net: Net, w: Wire)
    requires Inv(cfg, net) && w in net.sent && w.Box? && w.key == Key(Last(net.clientPairs), false)
    ensures |net.serverPairs| == |net.clientPairs|
  {
    hide Carried, Offered;
    var cp, sp := net.clientPairs, net.serverPairs;
    assert Known(cfg, net.client.tag, cp, sp, net.used, w);
    var i :| 0 <= i < |sp| && sp[i] == Last(cp);
    assert cp[i] == sp[i] && cp[i].client == cp[|cp| - 1].client;
  }

  /** A client that sends nothing and keeps its pair keeps the invariant. */
  lemma ClientKeeps(cfg: Config, net: Net, net': Net)
    requires Inv(cfg, net) && net'.client.keys.Some?
    requires net'.client.keys.value.SendKey() == net.client.keys.value.SendKey()
    requires net'.client.tag == net.client.tag && net'.server == net.server && net'.sent == net.sent
    requires net'.used == net.used
    requires net'.clientPairs == net.clientPairs && net'.serverPairs == net.serverPairs
    requires net'.client.rekeyHs == net.client.rekeyHs || net'.client.rekeyHs == Some(Spent)
    ensures Inv(cfg, net')
  {
    hide Known;
  }

  /** Message 2 of its own handshake at a client that gets message 3 out. */
  predicate Completes(cfg: ClientConfig, c: Client, f: Frame, d: Draw) {
    && c.connected && c.rekeying && f.tag == c.tag && d.sendOk
    && c.rekeyHs.Some? && c.rekeyHs.value.AwaitReply? && cfg.noise.read2(c.rekeyHs.value.e, f.payload).Some?
  }

  function Completed(cfg: ClientConfig, c: Client, f: Frame, d: Draw): (Pair, Message)
    requires Completes(cfg, c, f, d)
  {
    var p := Pair(c.rekeyHs.value.e, cfg.noise.read2(c.rekeyHs.value.e, f.payload).value);
    (p, Message(d.nonce, c.tag, MSG_REKEY3, cfg.noise.write3(p.client, p.server, cfg.identity), d.padding))
  }

  lemma Rekey2Client(cfg: ClientConfig, c: Client, w: Wire, d: Draw)
    requires c.keys.Some? && OpenWire(c.keys.value, w).1 == Opened(Carried(w)) && Carried(w).typ == MSG_REKEY2
    ensures var r, k, f := ClientReceive(cfg, c, w, d), OpenWire(c.keys.value, w).0, Carried(w);
            if Completes(cfg, c, f, d) then
              var (p, m) := Completed(cfg, c, f, d);
              && r.client == c.(keys := Some(NewKeys(true, p)), rekeying := false, rekeyHs := None)
              && r.sends == [SealedWire(k, m)]
            else
              && r.sends == []
              && (r.client == c.(keys := Some(k))
                  || (r.client == c.(keys := Some(AfterSeal(k)), rekeyHs := Some(Spent))
                      && Completes(cfg, c, f, Sure(d))))
  {
    hide Carried, OpenWire, SealedWire, ParseAssign, Endpoints.Teardown, IsIPv4;
  }

  /** What message 2 does: the client installs a pair and sends message 3, or at most uses up a number. */
  lemma Rekey2Effect(cfg: Config, net: Net, w: Wire, d: Draw)
    requires Inv(cfg, net) && Deliverable(net, w)
    requires OpenWire(net.client.keys.value, w).1.Opened? && Carried(w).typ == MSG_REKEY2
    ensures var net', c, k := Act(cfg, net, ToClient(w, d)), net.client, OpenWire(net.client.keys.value, w).0;
            && net' == net.(client := net'.client, sent := net'.sent, clientPairs := net'.clientPairs)
            && if Completes(cfg.client, c, Carried(w), d) then
                 var (p, m) := Completed(cfg.client, c, Carried(w), d);
                 && net'.client == c.(keys := Some(NewKeys(true, p)), rekeying := false, rekeyHs := None)
                 && net'.clientPairs == net.clientPairs + [p] && net'.sent == net.sent + {SealedWire(k, m)}
               else
                 && (net'.client == c.(keys := Some(k))
                     || (net'.client == c.(keys := Some(AfterSeal(k)), rekeyHs := Some(Spent))
                         && Completes(cfg.client, c, Carried(w), Sure(d))))
                 && net'.clientPairs == net.clientPairs && net'.sent == net.sent
  {
    hide Carried, OpenWire, SealedWire, Traffic, Distinct, ClientReceive;
    OpenedAtClient(cfg, net, w);
    Rekey2Client(cfg.client, net.client, w, d);
    assert net.sent + Elements([]) == net.sent && net.used + {} == net.used;
    if Completes(cfg.client, net.client, Carried(w), d) {
      var w3 := SealedWire(OpenWire(net.client.keys.value, w).0, Completed(cfg.client, net.client, Carried(w), d).1);
      assert Elements([w3]) == {w3} by { assert [w3][0] == w3; }
    }
  }

  /** Message 2: if message 3 leaves, the client installs a new pair, and runs one ahead of the server. */
  lemma ToClientRekey2(cfg: Config, net: Net, w: Wire, d: Draw)
    requires Matched(cfg) && Inv(cfg, net) && Deliverable(net, w)
    requires OpenWire(net.client.keys.value, w).1.Opened? && Carried(w).typ == MSG_REKEY2
    ensures Inv(cfg, Act(cfg, net, ToClient(w, d)))
  {
    hide Carried, OpenWire, SealedWire, Act, Matched, Traffic, Drawn;
    OpenedAtClient(cfg, net, w);
    Rekey2Effect(cfg, net, w, d);
    if Completes(cfg.client, net.client, Carried(w), d) {
      var (p, m) := Completed(cfg.client, net.client, Carried(w), d);
      HeardMeansLevel(cfg, net, w);
      ReplyDrawn(cfg, net, w, p.client, p.server);
      InstallKeeps(cfg, net, Act(cfg, net, ToClient(w, d)), p, OpenWire(net.client.keys.value, w).0, m);
    } else {
      ClientKeeps(cfg, net, Act(cfg, net, ToClient(w, d)));
    }
  }

  lemma InstallKeeps(cfg: Config, net: Net, net': Net, p: Pair, k: KeyState, m: Message)
    requires Matched(cfg) && Inv(cfg, net) && |net.serverPairs| == |net.clientPairs| && p.server in net.used
    requires net.client.rekeyHs == Some(AwaitReply(p.client)) && k.SendKey() == net.client.keys.value.SendKey()
    requires m.tag == net.client.tag && m.typ == MSG_REKEY3
    requires m.payload == cfg.client.noise.write3(p.client, p.server, cfg.client.identity)
    requires net'.server == net.server && net'.used == net.used && net'.serverPairs == net.serverPairs
    requires net'.client == net.client.(keys := Some(NewKeys(true, p)), rekeying := false, rekeyHs := None)
    requires net'.clientPairs == net.clientPairs + [p] && net'.sent == net.sent + {SealedWire(k, m)}
    ensures Inv(cfg, net')
  {
    hide Known, SealedWire, Matched;
    Message3Known(cfg, net', net.clientPairs, k, m);
    TrafficGrows(cfg, net, net');
  }

  lemma ReplyDrawn(cfg: Config, net: Net, w: Wire, e: Point, s: Point)
    requires Matched(cfg) && Traffic(cfg, net) && w in net.sent && w.Box? && !w.key.toServer
    requires Carried(w).typ == MSG_REKEY2
    requires cfg.client.noise.read2(e, Carried(w).payload) == Some(s)
    ensures s in net.used
  {
    hide Carried, Offered;
    assert Known(cfg, net.client.tag, net.clientPairs, net.serverPairs, net.used, w);
    var e', s' :| s' in net.used && Carried(w).payload == cfg.client.noise.write2(e', s');
    assert Carried(w).payload == cfg.client.noise.write2(e, s);
  }

  lemma Message3Known(cfg: Config, net: Net, before: seq<Pair>, k: KeyState, m: Message)
    requires Matched(cfg) && before != [] && |net.clientPairs| == |before| + 1 && before <= net.clientPairs
    requires k.SendKey() == Key(Last(before), true) && m.tag == net.client.tag && m.typ == MSG_REKEY3
    requires m.payload == cfg.client.noise.write3(Last(net.clientPairs).client, Last(net.clientPairs).server,
                                                  cfg.client.identity)
    ensures Known(cfg, net.client.tag, net.clientPairs, net.serverPairs, net.used, SealedWire(k, m))
  {
    hide Carried, Offered, SealedWire;
    assert |m.payload| <= 128;
    CarriedSealed(k, m);
    var j := |before| - 1;
    assert net.clientPairs[j] == Last(before) && net.clientPairs[j + 1] == Last(net.clientPairs);
  }

  /** What any other frame does: the client's keys count it, and it may bring the address or the end. */
  lemma OtherEffect(cfg: Config, net: Net, w: Wire, d: Draw)
    requires Inv(cfg, net) && Deliverable(net, w)
    requires OpenWire(net.client.keys.value, w).1.Opened? && Carried(w).typ != MSG_REKEY2
    ensures var net' := Act(cfg, net, ToClient(w, d));
            var c := net.client.(keys := Some(OpenWire(net.client.keys.value, w).0));
            && net' == net.(client := net'.client, clientGone := net'.clientGone)
            && (net.clientGone ==> net'.clientGone)
            && net'.client == c.(connected := net'.client.connected, address := net'.client.address)
            && (c.connected ==> net'.client == c)
  {
    hide Carried, OpenWire, Traffic, Drawn, ParseAssign, IsIPv4;
    OpenedAtClient(cfg, net, w);
    assert net.used + {} == net.used && net.sent + Elements([]) == net.sent;
  }

  lemma ToClientOther(cfg: Config, net: Net, w: Wire, d: Draw)
    requires Inv(cfg, net) && Deliverable(net, w)
    requires OpenWire(net.client.keys.value, w).1.Opened? && Carried(w).typ != MSG_REKEY2
    ensures Inv(cfg, Act(cfg, net, ToClient(w, d)))
    ensures Act(cfg, net, ToClient(w, d)).clientPairs == net.clientPairs
  {
    hide Carried, OpenWire, Act, Traffic, Drawn;
    OpenedAtClient(cfg, net, w);
    OtherEffect(cfg, net, w, d);
    ClientKeeps(cfg, net, Act(cfg, net, ToClient(w, d)));
  }

  lemma ToClientKeeps(cfg: Config, net: Net, w: Wire, d: Draw)
    requires Matched(cfg) && Inv(cfg, net)
    ensures Inv(cfg, Act(cfg, net, ToClient(w, d)))
  {
    hide Carried, OpenWire, Known, Traffic, Drawn;
    if Deliverable(net, w) {
      if OpenWire(net.client.keys.value, w).1.Refused? {
        RefusedAtClient(cfg, net, w, d);
      } else if Carried(w).typ == MSG_REKEY2 {
        ToClientRekey2(cfg, net, w, d);
      } else {
        ToClientOther(cfg, net, w, d);
      }
    }
  }

  lemma LocalKeeps(cfg: Config, net: Net, step: Step)
    requires Inv(cfg, net) && !step.ClientRekeys? && !step.ServerTimesOut? && !step.ToServer? && !step.ToClient?
    ensures Inv(cfg, Act(cfg, net, step))
  {
    hide Inv, ClientActs, ServerActs, ClientSend, ServerSend, ClientPacket, ServerPacket;
    match step
    case ClientReads(packet, d) =>
      if |packet| < TWO16 {
        ClientReadsAct(cfg, net, packet, d);
        ClientSendKeeps(cfg, net, MSG_DATA, packet, d);
      }
    case ServerReads(packet, d) =>
      if |packet| < TWO16 {
        ServerReadsAct(cfg, net, packet, d);
        ServerSendKeeps(cfg, net, MSG_DATA, packet, d);
      }
    case ClientSends(typ, payload, d) =>
      if |payload| < TWO16 && Local(typ, true) {
        ClientSendKeeps(cfg, net, typ, payload, d);
      }
    case ServerSends(typ, payload, d) =>
      if |payload| < TWO16 && Local(typ, false) {
        ServerSendKeeps(cfg, net, typ, payload, d);
      }
    case ClientCloses(polite, d) =>
      ClientSendKeeps(cfg, net, MSG_CLOSE, [], d);
      var sent := ClientActs(net, ClientSend(net.client, MSG_CLOSE, [], d), {});
      var mid := if polite && net.client.connected then sent else net;
      GoneKeeps(cfg, mid, true, mid.serverGone);
    case ServerCloses(polite, d) =>
      ServerSendKeeps(cfg, net, MSG_CLOSE, [], d);
      var mid := if polite then ServerActs(net, ServerSend(net.server, MSG_CLOSE, [], d), {}) else net;
      GoneKeeps(cfg, mid, mid.clientGone, true);
    case ServerFinishes(d) => ServerSendKeeps(cfg, net, MSG_CLOSE, [], d);
  }

  /** What ends a connection: a close of the end's own, or one that it opens; nothing else does. */
  lemma GoneExact(cfg: Config, net: Net, step: Step)
    requires Inv(cfg, net)
    ensures var net' := Apply(cfg, net, step);
            && (net'.serverGone <==>
                || net.serverGone || (step.ServerCloses? && !Panics(cfg, net, step))
                || (step.ToServer? && Deliverable(net, step.w) && OpenWire(net.server.keys.value, step.w).1.Opened?
                    && Carried(step.w).typ == MSG_CLOSE))
            && (net'.clientGone <==>
                || net.clientGone || (step.ClientCloses? && !Panics(cfg, net, step))
                || (step.ToClient? && Deliverable(net, step.w) && OpenWire(net.client.keys.value, step.w).1.Opened?
                    && net.client.connected && Carried(step.w).typ == MSG_CLOSE))
  {
    hide Carried, OpenWire, SealedWire, Traffic, Drawn, Known, Panics, ServerReceive, ClientReceive;
    hide ClientSend, ServerSend, ClientPacket, ServerPacket, StartRekey;
    if step.ToServer? && Deliverable(net, step.w) {
      ServerGoneExact(cfg, net, step.w, step.d);
    } else if step.ToClient? && Deliverable(net, step.w) {
      ClientGoneExact(cfg, net, step.w, step.d);
    }
  }

  /** A polite close, and the last one, seals a frame of code 6 under its end's key, which leaves if Send succeeds. */
  lemma CloseSealed(cfg: Config, net: Net, step: Step)
    requires Inv(cfg, net) && !Absent(net, step) && !Panics(cfg, net, step)
    requires step.ClientCloses? || step.ServerCloses? || step.ServerFinishes?
    ensures var net' := Apply(cfg, net, step);
            var (k, k') := if step.ClientCloses? then (net.client.keys.value, net'.client.keys)
                           else (net.server.keys.value, net'.server.keys);
            var gated := if step.ClientCloses? then net.client.rekeying || !net.client.connected
                         else net.server.rekeying;
            if gated || (!step.ServerFinishes? && !step.polite) then k' == Some(k) && net'.sent == net.sent
            else
              && k' == Some(AfterSeal(k))
              && if step.d.sendOk then
                   exists w: Wire :: net'.sent == net.sent + {w} && w.Box? && w.key == k.SendKey()
                                     && Carried(w).typ == 0x06 && Carried(w).num == k.sendSeq % TWO32
                 else net'.sent == net.sent
  {
    hide Carried, SealedWire, Traffic, Drawn, Panics;
    assert net.sent + Elements([]) == net.sent;
    var (k, tag) := if step.ClientCloses? then (net.client.keys.value, net.client.tag)
                    else (net.server.keys.value, net.server.tag);
    var m := Message(step.d.nonce, tag, MSG_CLOSE, [], step.d.padding);
    SealedHeader(k, m);
    ElementsOne(SealedWire(k, m));
  }

  /**
   * A packet read from its TUN leaves a connected client that is not rekeying, and any server that is
   * not, under code 4 and unchanged, if Send succeeds; what the client drops leaves no trace.
   */
  lemma PacketSealed(cfg: Config, net: Net, step: Step)
    requires Inv(cfg, net) && !Absent(net, step) && !Panics(cfg, net, step)
    requires (step.ClientReads? || step.ServerReads?) && |step.packet| < TWO16 && net.server.ip.Some?
    ensures var net' := Apply(cfg, net, step);
            var (k, tag) := if step.ClientReads? then (net.client.keys.value, net.client.tag)
                            else (net.server.keys.value, net.server.tag);
            var taken := if step.ClientReads?
                         then net.client.connected && !net.client.rekeying && |step.packet| <= cfg.client.mtu
                              && Version4(step.packet)
                         else !net.server.rekeying;
            if !taken then net' == net
            else if step.d.sendOk then
              exists w: Wire :: net'.sent == net.sent + {w} && w.Box? && w.key == k.SendKey()
                                && Carried(w) == Frame(tag, 0x04, k.sendSeq % TWO32, step.packet)
            else net'.sent == net.sent
  {
    hide Carried, SealedWire, Traffic, Drawn, Panics, IsIPv4, Version4;
    IsIPv4Exact(step.packet);
    assert net.sent + Elements([]) == net.sent && net.used + {} == net.used;
    var (k, tag) := if step.ClientReads? then (net.client.keys.value, net.client.tag)
                    else (net.server.keys.value, net.server.tag);
    var m := Message(step.d.nonce, tag, MSG_DATA, step.packet, step.d.padding);
    CarriedSealed(k, m);
    ElementsOne(SealedWire(k, m));
  }

  lemma ServerGoneExact(cfg: Config, net: Net, w: Wire, d: Draw)
    requires Inv(cfg, net) && Deliverable(net, w)
    ensures var taken := OpenWire(net.server.keys.value, w).1.Opened?;
            && (Act(cfg, net, ToServer(w, d)).serverGone <==>
                net.serverGone || (taken && Carried(w).typ == MSG_CLOSE))
            && Act(cfg, net, ToServer(w, d)).clientGone == net.clientGone
            && (taken && Carried(w).typ == MSG_CLOSE ==> !Panics(cfg, net, ToServer(w, d)))
  {
    hide Carried, OpenWire, SealedWire, Traffic, Drawn, Parse, InBuffer;
    NothingInBuffer();
    if OpenWire(net.server.keys.value, w).1.Opened? {
      OpenedAtServer(cfg, net, w);
      KnownTag(cfg, net, w);
    }
  }

  lemma ClientGoneExact(cfg: Config, net: Net, w: Wire, d: Draw)
    requires Inv(cfg, net) && Deliverable(net, w)
    ensures var taken := OpenWire(net.client.keys.value, w).1.Opened?;
            && (Act(cfg, net, ToClient(w, d)).clientGone <==>
                net.clientGone || (taken && net.client.connected && Carried(w).typ == MSG_CLOSE))
            && Act(cfg, net, ToClient(w, d)).serverGone == net.serverGone
            && (taken && Carried(w).typ == MSG_CLOSE ==> !Panics(cfg, net, ToClient(w, d)))
  {
    hide Carried, OpenWire, SealedWire, Traffic, Drawn, IsIPv4, InBuffer, Get32;
    NothingInBuffer();
    if OpenWire(net.client.keys.value, w).1.Opened? {
      OpenedAtClient(cfg, net, w);
      KnownTag(cfg, net, w);
    }
  }

  /** Every box that was sent carries the session's tag, and an assignment is nine bytes long. */
  lemma KnownTag(cfg: Config, net: Net, w: Wire)
    requires Inv(cfg, net) && w in net.sent && w.Box?
    ensures Carried(w).tag == net.client.tag == net.server.tag && Offered(w.key, w) == Some(Carried(w))
    ensures !w.key.toServer && Carried(w).typ == MSG_ASSIGN ==> |Carried(w).payload| == 9
  {
    hide Carried, Offered;
    assert Known(cfg, net.client.tag, net.clientPairs, net.serverPairs, net.used, w);
  }

  lemma StepKeeps(cfg: Config, net: Net, step: Step)
    requires Matched(cfg) && Inv(cfg, net)
    ensures Inv(cfg, Act(cfg, net, step)) && Inv(cfg, Apply(cfg, net, step))
  {
    hide Inv, Matched, Act, Absent, Panics;
    match step
    case ClientRekeys(d) => ClientRekeysKeeps(cfg, net, d);
    case ServerTimesOut => TimeoutKeeps(cfg, net);
    case ToServer(w, d) => ToServerKeeps(cfg, net, w, d);
    case ToClient(w, d) => ToClientKeeps(cfg, net, w, d);
    case _ => LocalKeeps(cfg, net, step);
  }

  lemma TimeoutKeeps(cfg: Config, net: Net)
    requires Inv(cfg, net)
    ensures Inv(cfg, Act(cfg, net, ServerTimesOut))
  {
    hide Known;
  }

  lemma BeginInv(cfg: Config, p: Pair, tag: Tag, ip: nat, d: Draw)
    requires Matched(cfg)
    ensures Inv(cfg, Begin(cfg, p, tag, ip, d))
  {
    hide Offered, Carried, SealedWire;
    var k := NewKeys(false, p);
    var m := Message(d.nonce, tag, MSG_ASSIGN, AssignPayload(Assignment(cfg.server.prefix, ip, cfg.server.gw)),
                     d.padding);
    CarriedSealed(k, m);
    assert Begin(cfg, p, tag, ip, d).sent <= {SealedWire(k, m)};
  }

  lemma {:induction false} RunKeeps(cfg: Config, net: Net, steps: seq<Step>)
    requires Matched(cfg) && Inv(cfg, net)
    ensures Inv(cfg, Run(cfg, net, steps))
  {
    hide Inv, Matched, Apply;
    if steps != [] {
      var k := |steps| - 1;
      RunKeeps(cfg, net, steps[..k]);
      StepKeeps(cfg, Run(cfg, net, steps[..k]), steps[k]);
    }
  }

  /**
   * Whatever the network does, and whenever either end closes, the server's key history is a prefix of
   * the client's and at most one pair shorter: the server installs only pairs that the client has
   * already installed.
   */
  lemma EpochsNeverDiverge(cfg: Config, p: Pair, tag: Tag, ip: nat, d: Draw, steps: seq<Step>)
    requires Matched(cfg)
    ensures var net := Run(cfg, Begin(cfg, p, tag, ip, d), steps);
            && net.serverPairs != []
            && net.serverPairs <= net.clientPairs
            && |net.clientPairs| <= |net.serverPairs| + 1
            && net.client.keys.Some? && net.client.keys.value.pair == Last(net.clientPairs)
            && net.server.keys.Some? && net.server.keys.value.pair == Last(net.serverPairs)
  {
    hide Begin, Run, Traffic, Drawn, Matched;
    BeginInv(cfg, p, tag, ip, d);
    RunKeeps(cfg, Begin(cfg, p, tag, ip, d), steps);
  }
}
