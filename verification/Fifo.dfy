/**
 * Client and server joined by two lossless FIFO channels, as the TLS and raw TCP carriers are.
 * Sends succeed and the server's rekey timer does not fire.
 */
module Fifo {
  import opened Bytes
  import opened IPv4
  import opened Framing
  import opened NoiseXK
  import opened SessionKeys
  import opened Endpoints
  import RS = ReplaySpec

  /**
   * One direction: every frame one end has sealed, every frame the other has opened, and what that one
   * wrote to its TUN.
   */
  datatype Log = Log(sent: seq<Frame>, got: seq<Frame>, tun: seq<Bytes>)

  /** An end that is gone has closed the connection; its state stays what it was then. */
  datatype Net = Net(
    client: Client, server: Server, c2s: seq<Wire>, s2c: seq<Wire>, up: Log, down: Log,
    clientGone: bool, serverGone: bool)

  function CarriedAll(ws: seq<Wire>): seq<Frame> {
    seq(|ws|, i requires 0 <= i < |ws| => Carried(ws[i]))
  }

  predicate Ordinary(typ: Byte) {
    typ == MSG_DATA || typ == MSG_KEEPALIVE || typ == MSG_CLOSE || typ == MSG_DECOY || typ == MSG_ASSIGN
  }

  /**
   * Packets read from either TUN, other local triggers, the end of the connection on either side,
   * politely or not, and the delivery of the oldest datagram in either direction.
   */
  datatype Step =
    | ClientReads(packet: Bytes, d: Draw)
    | ServerReads(packet: Bytes, d: Draw)
    | ClientSends(typ: Byte, payload: Bytes, d: Draw)
    | ClientRekeys(d: Draw)
    | ServerSends(typ: Byte, payload: Bytes, d: Draw)
    | ClientCloses(polite: bool, d: Draw)
    | ServerCloses(polite: bool, d: Draw)
    | ToServer(d: Draw)
    | ToClient(d: Draw)

  function ClientActs(net: Net, r: ClientStep): Net {
    net.(client := r.client, c2s := net.c2s + r.sends, up := net.up.(sent := net.up.sent + CarriedAll(r.sends)),
         down := net.down.(tun := net.down.tun + r.tun))
  }

  function ServerActs(net: Net, r: ServerStep): Net {
    net.(server := r.server, s2c := net.s2c + r.sends, down := net.down.(sent := net.down.sent + CarriedAll(r.sends)),
         up := net.up.(tun := net.up.tun + r.tun))
  }

  function Opens(k: KeyState, w: Wire): seq<Frame> {
    match OpenWire(k, w).1
    case Opened(f) => [f]
    case Refused(_) => []
  }

  /** The end that would take the step is gone. */
  predicate Absent(net: Net, step: Step) {
    if step.ClientReads? || step.ClientSends? || step.ClientRekeys? || step.ClientCloses? || step.ToClient?
    then net.clientGone else net.serverGone
  }

  /** The step would have Seal slice its buffer too far, which panics. */
  predicate Panics(cfg: Config, net: Net, step: Step) {
    match step
    case ClientReads(packet, d) => !InBuffer(ClientPacket(cfg.client, net.client, packet, Sure(d)).sends)
    case ServerReads(packet, d) => !InBuffer(ServerPacket(net.server, packet, Sure(d)).sends)
    case ClientSends(typ, payload, d) => !InBuffer(ClientSend(net.client, typ, payload, Sure(d)).sends)
    case ClientRekeys(d) => !InBuffer(StartRekey(cfg.client, net.client, Sure(d)).sends)
    case ServerSends(typ, payload, d) => !InBuffer(ServerSend(net.server, typ, payload, Sure(d)).sends)
    case ClientCloses(polite, d) => polite && !InBuffer(ClientSend(net.client, MSG_CLOSE, [], Sure(d)).sends)
    case ServerCloses(polite, d) => polite && !InBuffer(ServerSend(net.server, MSG_CLOSE, [], Sure(d)).sends)
    case ToServer(d) => net.c2s != [] && net.server.keys.Some? && Overruns(cfg.server, net.server, net.c2s[0], d)
    case ToClient(d) => net.s2c != [] && !InBuffer(ClientReceive(cfg.client, net.client, net.s2c[0], Sure(d)).sends)
  }

  /** The client acts on the oldest datagram; if that makes it tear the connection down, it is gone. */
  function ClientTakesNext(cfg: Config, net: Net, d: Draw): Net
    requires net.s2c != [] && net.client.keys.Some?
  {
    var w, k := net.s2c[0], net.client.keys.value;
    var popped := net.(s2c := net.s2c[1..], down := net.down.(got := net.down.got + Opens(k, w)));
    var r := ClientReceive(cfg.client, net.client, w, Sure(d));
    var after := ClientActs(popped, r);
    if r.client.keys.Some? then after
    else after.(client := net.client.(keys := Some(OpenWire(k, w).0)), clientGone := true)
  }

  function ServerTakesNext(cfg: Config, net: Net, d: Draw): Net
    requires net.c2s != [] && net.server.keys.Some?
  {
    var w, k := net.c2s[0], net.server.keys.value;
    var popped := net.(c2s := net.c2s[1..], up := net.up.(got := net.up.got + Opens(k, w)));
    var r := ServerReceive(cfg.server, net.server, w, Sure(d));
    ServerActs(popped, r).(serverGone := r.fatal)
  }

  /** A step that is not enabled leaves the net as it is. */
  function Act(cfg: Config, net: Net, step: Step): Net {
    match step
    case ClientReads(packet, d) =>
      if net.client.connected && |packet| < TWO16 then
        ClientActs(net, ClientPacket(cfg.client, net.client, packet, Sure(d)))
      else net
    case ServerReads(packet, d) =>
      if |packet| < TWO16 then ServerActs(net, ServerPacket(net.server, packet, Sure(d))) else net
    case ClientSends(typ, payload, d) =>
      if net.client.connected && Local(typ, true) && |payload| < TWO16 then
        ClientActs(net, ClientSend(net.client, typ, payload, Sure(d)))
      else net
    case ClientRekeys(d) => ClientActs(net, StartRekey(cfg.client, net.client, Sure(d)))
    case ServerSends(typ, payload, d) =>
      if Local(typ, false) && |payload| < TWO16 then
        ServerActs(net, ServerSend(net.server, typ, payload, Sure(d)))
      else net
    case ClientCloses(polite, d) =>
      (if polite && net.client.connected then ClientActs(net, ClientSend(net.client, MSG_CLOSE, [], Sure(d))) else net)
      .(clientGone := true)
    case ServerCloses(polite, d) =>
      (if polite then ServerActs(net, ServerSend(net.server, MSG_CLOSE, [], Sure(d))) else net)
      .(serverGone := true)
    case ToServer(d) => if net.c2s == [] || net.server.keys.None? then net else ServerTakesNext(cfg, net, d)
    case ToClient(d) => if net.s2c == [] || net.client.keys.None? then net else ClientTakesNext(cfg, net, d)
  }

  /** A panic ends the process, so no run goes on with a step that panics. */
  function Apply(cfg: Config, net: Net, step: Step): Net {
    if Absent(net, step) || Panics(cfg, net, step) then net else Act(cfg, net, step)
  }

  function Run(cfg: Config, net: Net, steps: seq<Step>): Net {
    if steps == [] then net else Apply(cfg, Run(cfg, net, steps[..|steps| - 1]), steps[|steps| - 1])
  }

  /** The moment handshake message 3 has been accepted: the assignment is on its way. */
  function Begin(cfg: Config, p: Pair, tag: Tag, ip: nat, d: Draw): Net {
    var (c, r) := Meet(cfg, p, tag, ip, Sure(d));
    ServerActs(Net(c, r.server, [], [], Log([], [], []), Log([], [], []), false, false), r)
  }

  /** Neither end has used up the 2^32 sequence numbers of its key. */
  predicate Roomy(net: Net) {
    && (net.client.keys.Some? ==> net.client.keys.value.sendSeq < TWO32)
    && (net.server.keys.Some? ==> net.server.keys.value.sendSeq < TWO32)
  }

  predicate RoomyRun(cfg: Config, net: Net, steps: seq<Step>) {
    forall i :: 0 <= i < |steps| ==> Roomy(Run(cfg, net, steps[..i]))
  }

  // ---- One direction under one key ----

  predicate Carries(w: Wire, key: Key, tag: Tag, num: nat) {
    Offered(key, w) == Some(Carried(w)) && Carried(w).tag == tag && Carried(w).num == num
  }

  predicate InOrder(q: seq<Wire>, key: Key, tag: Tag, from: nat) {
    forall i :: 0 <= i < |q| ==> Carries(q[i], key, tag, from + i)
  }

  /** The window after the numbers 0 .. n-1 came in order. */
  predicate Received(w: RS.Window, n: nat) {
    w.size == REPLAY_WINDOW_SIZE && w.high == if n == 0 then RS.EMPTY else n - 1
  }

  /** The channel holds, in order, exactly what the sender has sealed and the receiver has not yet opened. */
  predicate Linked(send: KeyState, recv: KeyState, q: seq<Wire>, tag: Tag) {
    && recv.RecvKey() == send.SendKey()
    && |q| <= send.sendSeq <= TWO32
    && InOrder(q, send.SendKey(), tag, send.sendSeq - |q|)
    && Received(recv.replay, send.sendSeq - |q|)
  }

  lemma CarriesSealed(k: KeyState, m: Message)
    requires |m.payload| < TWO16 && k.sendSeq < TWO32
    ensures Carried(SealedWire(k, m)) == Frame(m.tag, m.typ, k.sendSeq, m.payload)
    ensures Carries(SealedWire(k, m), k.SendKey(), m.tag, k.sendSeq)
  {
    hide Offered, Carried, SealedWire;
    CarriedSealed(k, m);
  }

  lemma LinkedSend(send: KeyState, recv: KeyState, q: seq<Wire>, tag: Tag, m: Message)
    requires Linked(send, recv, q, tag) && send.sendSeq < TWO32
    requires m.tag == tag && |m.payload| < TWO16
    ensures Linked(AfterSeal(send), recv, q + [SealedWire(send, m)], tag)
  {
    hide Offered, Carried, SealedWire;
    CarriesSealed(send, m);
  }

  /** The next frame always opens: its key is the receiver's, and the window has not seen its number. */
  lemma LinkedReceive(send: KeyState, recv: KeyState, q: seq<Wire>, tag: Tag)
    requires Linked(send, recv, q, tag) && q != []
    ensures OpenWire(recv, q[0]).1 == Opened(Carried(q[0]))
    ensures OpenWire(recv, q[0]).0 == recv.(replay := OpenWire(recv, q[0]).0.replay)
    ensures Linked(send, OpenWire(recv, q[0]).0, q[1..], tag)
  {
    hide Offered, Carried, OpenWire;
    OpenStep(recv, q[0]);
    assert Carries(q[0], send.SendKey(), tag, send.sendSeq - |q| + 0);
    forall i | 0 <= i < |q[1..]|
      ensures Carries(q[1..][i], send.SendKey(), tag, send.sendSeq - |q[1..]| + i)
    {
      assert Carries(q[i + 1], send.SendKey(), tag, send.sendSeq - |q| + (i + 1));
    }
  }

  // ---- The phases of a rekey ----

  predicate AllOrdinary(q: seq<Wire>) {
    forall i :: 0 <= i < |q| ==> Ordinary(Carried(q[i]).typ)
  }

  /** Only the last frame belongs to a rekey. */
  predicate EndsIn(q: seq<Wire>, typ: Byte, payload: Bytes) {
    && q != []
    && Carried(q[|q| - 1]).typ == typ && Carried(q[|q| - 1]).payload == payload
    && AllOrdinary(q[..|q| - 1])
  }

  /** A rekeying client has sent message 1 and nothing after it. */
  predicate Asking(cfg: Config, c: Client, q: seq<Wire>) {
    if c.rekeying then
      && c.rekeyHs.Some? && c.rekeyHs.value.AwaitReply?
      && EndsIn(q, MSG_REKEY1, cfg.client.noise.write1(c.rekeyHs.value.e, []))
    else AllOrdinary(q)
  }

  predicate Live(cfg: Config, net: Net) {
    && net.client.keys.Some? && net.client.keys.value.isClient
    && net.server.keys.Some? && !net.server.keys.value.isClient
    && net.client.tag == net.server.tag
    && net.server.clientKey == Some(cfg.client.identity)
    && net.server.ip.Some?
    && (net.client.connected ==> net.client.address == ParseAssign(Told(cfg, net.server.ip.value)))
  }

  function Told(cfg: Config, ip: nat): Bytes {
    AssignPayload(Assignment(cfg.server.prefix, ip, cfg.server.gw))
  }

  predicate Assigning(cfg: Config, ip: nat, q: seq<Wire>) {
    q != [] && Carried(q[0]).typ == MSG_ASSIGN && Carried(q[0]).payload == Told(cfg, ip)
  }

  /** One epoch, and the server has no rekey under way. */
  predicate Calm(cfg: Config, net: Net) {
    && Live(cfg, net)
    && Linked(net.client.keys.value, net.server.keys.value, net.c2s, net.client.tag)
    && Linked(net.server.keys.value, net.client.keys.value, net.s2c, net.client.tag)
    && !net.server.rekeying && AllOrdinary(net.s2c)
    && Asking(cfg, net.client, net.c2s)
    && (!net.client.connected ==> net.c2s == [] && !net.client.rekeying && Assigning(cfg, net.server.ip.value, net.s2c))
  }

  /** The server has answered message 1: nothing can reach it, and nothing follows its answer. */
  predicate Answered(cfg: Config, net: Net) {
    && Live(cfg, net)
    && Linked(net.client.keys.value, net.server.keys.value, net.c2s, net.client.tag)
    && Linked(net.server.keys.value, net.client.keys.value, net.s2c, net.client.tag)
    && net.client.connected && net.client.rekeying && net.server.rekeying
    && net.client.rekeyHs.Some? && net.client.rekeyHs.value.AwaitReply? && net.server.rekeyHs.Some?
    && net.server.rekeyHs.value.client == net.client.rekeyHs.value.e
    && net.c2s == []
    && EndsIn(net.s2c, MSG_REKEY2,
              cfg.client.noise.write2(net.server.rekeyHs.value.client, net.server.rekeyHs.value.server))
  }

  /** The client has moved on: message 3 is the last frame under the old key, and the rest is under the new one. */
  predicate Switched(cfg: Config, net: Net) {
    && Live(cfg, net)
    && net.client.connected && net.server.rekeying && net.s2c == [] && net.c2s != []
    && net.server.rekeyHs == Some(net.client.keys.value.pair)
    && (var p, w := net.client.keys.value.pair, net.c2s[0];
        && Carried(w).typ == MSG_REKEY3
        && Carried(w).payload == cfg.client.noise.write3(p.client, p.server, cfg.client.identity)
        && Linked(KeyState(net.server.keys.value.pair, true, Carried(w).num + 1, RS.Fresh(0)), net.server.keys.value,
                  [w], net.client.tag)
        && Linked(net.client.keys.value, NewKeys(false, p), net.c2s[1..], net.client.tag)
        && Linked(NewKeys(false, p), net.client.keys.value, [], net.client.tag))
    && Asking(cfg, net.client, net.c2s[1..])
  }

  predicate Inv(cfg: Config, net: Net) {
    Calm(cfg, net) || Answered(cfg, net) || Switched(cfg, net)
  }

  /** Nothing is lost: what was sealed is what was opened and what is still on its way. */
  predicate Conserved(net: Net) {
    && net.up.sent == net.up.got + CarriedAll(net.c2s)
    && net.down.sent == net.down.got + CarriedAll(net.s2c)
  }

  lemma CarriedAllAppend(a: seq<Wire>, b: seq<Wire>)
    ensures CarriedAll(a + b) == CarriedAll(a) + CarriedAll(b)
  {
    hide Carried;
  }

  lemma CarriedAllPop(q: seq<Wire>)
    requires q != []
    ensures CarriedAll(q) == [Carried(q[0])] + CarriedAll(q[1..])
  {
    hide Carried;
  }

  lemma BeginInv(cfg: Config, p: Pair, tag: Tag, ip: nat, d: Draw)
    requires Matched(cfg)
    ensures Calm(cfg, Begin(cfg, p, tag, ip, d)) && Conserved(Begin(cfg, p, tag, ip, d))
  {
    hide Offered, Carried, SealedWire;
    var a := Told(cfg, ip);
    var k := NewKeys(false, p);
    var m := Message(d.nonce, tag, MSG_ASSIGN, a, d.padding);
    CarriesSealed(k, m);
    LinkedSend(k, NewKeys(true, p), [], tag, m);
    assert [] + [SealedWire(k, m)] == [SealedWire(k, m)];
    assert Begin(cfg, p, tag, ip, d).s2c == [SealedWire(k, m)];
  }

  lemma PopOrdinary(q: seq<Wire>)
    requires q != [] && AllOrdinary(q)
    ensures AllOrdinary(q[1..]) && Ordinary(Carried(q[0]).typ)
  {
    hide Carried;
  }

  lemma PopEnd(q: seq<Wire>, typ: Byte, payload: Bytes)
    requires |q| > 1 && EndsIn(q, typ, payload)
    ensures EndsIn(q[1..], typ, payload) && Ordinary(Carried(q[0]).typ)
  {
    hide Carried;
    PopOrdinary(q[..|q| - 1]);
    assert q[1..][..|q[1..]| - 1] == q[..|q| - 1][1..];
  }

  lemma PushOrdinary(q: seq<Wire>, w: Wire)
    requires AllOrdinary(q) && Ordinary(Carried(w).typ)
    ensures AllOrdinary(q + [w])
  {
    hide Carried;
  }

  lemma PushEnd(q: seq<Wire>, w: Wire)
    requires AllOrdinary(q)
    ensures EndsIn(q + [w], Carried(w).typ, Carried(w).payload)
  {
    hide Carried;
    assert (q + [w])[..|q|] == q;
  }

  /** The invariant speaks of the ends and the channels only. */
  lemma SameEnds(cfg: Config, net: Net, net': Net)
    requires Inv(cfg, net)
    requires net'.client == net.client && net'.server == net.server && net'.c2s == net.c2s && net'.s2c == net.s2c
    ensures Inv(cfg, net')
  {
    hide Linked, Asking, EndsIn, AllOrdinary, Carried;
  }

  /** After m the client may still be asking for a rekey, or have begun to with m itself. */
  predicate Follows(cfg: Config, c: Client, c': Client, m: Message) {
    && c.keys.Some? && c.keys.value.sendSeq < TWO32 && c.connected && !c.rekeying
    && m.tag == c.tag && |m.payload| < TWO16
    && (|| (Ordinary(m.typ) && c' == c.(keys := Some(AfterSeal(c.keys.value))))
        || (m.typ == MSG_REKEY1 && c'.rekeyHs.Some? && c'.rekeyHs.value.AwaitReply?
            && m.payload == cfg.client.noise.write1(c'.rekeyHs.value.e, [])
            && c' == c.(keys := Some(AfterSeal(c.keys.value)), rekeyHs := c'.rekeyHs, rekeying := true)))
  }

  lemma AskingFollows(cfg: Config, c: Client, c': Client, m: Message, q: seq<Wire>)
    requires Asking(cfg, c, q) && Follows(cfg, c, c', m)
    ensures Asking(cfg, c', q + [SealedWire(c.keys.value, m)])
  {
    hide Carried, SealedWire, AllOrdinary, EndsIn;
    CarriesSealed(c.keys.value, m);
    if Ordinary(m.typ) {
      PushOrdinary(q, SealedWire(c.keys.value, m));
    } else {
      PushEnd(q, SealedWire(c.keys.value, m));
    }
  }

  lemma CalmFollows(cfg: Config, net: Net, net': Net, m: Message)
    requires Calm(cfg, net) && Follows(cfg, net.client, net'.client, m)
    requires net'.server == net.server && net'.s2c == net.s2c
    requires net'.c2s == net.c2s + [SealedWire(net.client.keys.value, m)]
    ensures Calm(cfg, net')
  {
    hide Linked, Carried, SealedWire, AllOrdinary, Asking, Assigning, Told;
    AskingFollows(cfg, net.client, net'.client, m, net.c2s);
    LinkedSend(net.client.keys.value, net.server.keys.value, net.c2s, net.client.tag, m);
    LinkedOther(net.server.keys.value, net.client.keys.value, net'.client.keys.value, net.s2c, net.client.tag);
  }

  /** What a receiver seals does not matter to what it receives. */
  lemma LinkedOther(send: KeyState, recv: KeyState, recv': KeyState, q: seq<Wire>, tag: Tag)
    requires Linked(send, recv, q, tag) && recv'.RecvKey() == recv.RecvKey() && recv'.replay == recv.replay
    ensures Linked(send, recv', q, tag)
  {
  }

  lemma SwitchedFollows(cfg: Config, net: Net, net': Net, m: Message)
    requires Switched(cfg, net) && Follows(cfg, net.client, net'.client, m)
    requires net'.server == net.server && net'.s2c == net.s2c
    requires net'.c2s == net.c2s + [SealedWire(net.client.keys.value, m)]
    ensures Switched(cfg, net')
  {
    hide Linked, Carried, SealedWire, Asking, Told;
    var k, q := net.client.keys.value, net.c2s[1..];
    AskingFollows(cfg, net.client, net'.client, m, q);
    LinkedSend(k, NewKeys(false, k.pair), q, net.client.tag, m);
    LinkedOther(NewKeys(false, k.pair), k, net'.client.keys.value, [], net.client.tag);
    assert net'.c2s[1..] == q + [SealedWire(k, m)] && net'.c2s[0] == net.c2s[0];
  }

  lemma FollowsKeeps(cfg: Config, net: Net, net': Net, m: Message)
    requires Inv(cfg, net) && Follows(cfg, net.client, net'.client, m)
    requires net'.server == net.server && net'.s2c == net.s2c
    requires net'.c2s == net.c2s + [SealedWire(net.client.keys.value, m)]
    ensures Inv(cfg, net')
  {
    hide Calm, Switched, SealedWire;
    if Calm(cfg, net) {
      CalmFollows(cfg, net, net', m);
    } else {
      SwitchedFollows(cfg, net, net', m);
    }
  }

  lemma InvLive(cfg: Config, net: Net)
    requires Inv(cfg, net)
    ensures Live(cfg, net)
  {
    hide Live, Linked, Asking, EndsIn, AllOrdinary, Carried;
  }

  /** A frame of the client's own: refused while rekeying, otherwise appended to the channel. */
  lemma ClientSendKeeps(cfg: Config, net: Net, typ: Byte, payload: Bytes, d: Draw)
    requires Inv(cfg, net) && Roomy(net)
    requires net.client.connected && Ordinary(typ) && |payload| < TWO16
    ensures Inv(cfg, ClientActs(net, ClientSend(net.client, typ, payload, Sure(d))))
  {
    hide Inv, CarriedAll, SealedWire, Told;
    InvLive(cfg, net);
    var c := net.client;
    var net' := ClientActs(net, ClientSend(c, typ, payload, Sure(d)));
    if !c.rekeying {
      FollowsKeeps(cfg, net, net', Message(d.nonce, c.tag, typ, payload, d.padding));
    } else {
      assert net.c2s + [] == net.c2s;
      SameEnds(cfg, net, net');
    }
  }

  lemma ClientRekeysKeeps(cfg: Config, net: Net, d: Draw)
    requires Matched(cfg) && Inv(cfg, net) && Roomy(net)
    ensures Inv(cfg, Act(cfg, net, ClientRekeys(d)))
  {
    hide Inv, CarriedAll, SealedWire, Told;
    InvLive(cfg, net);
    var c := net.client;
    var net' := Act(cfg, net, ClientRekeys(d));
    if c.connected && !c.rekeying {
      var msg := cfg.client.noise.write1(d.ephemeral, []);
      assert |msg| == 48;
      FollowsKeeps(cfg, net, net', Message(d.nonce, c.tag, MSG_REKEY1, msg, d.padding));
    } else {
      assert net.c2s + [] == net.c2s;
      SameEnds(cfg, net, net');
    }
  }

  lemma CalmServerSends(cfg: Config, net: Net, net': Net, m: Message)
    requires Calm(cfg, net) && net.server.keys.value.sendSeq < TWO32
    requires m.tag == net.server.tag && |m.payload| < TWO16 && Ordinary(m.typ)
    requires net'.client == net.client && net'.c2s == net.c2s
    requires net'.server == net.server.(keys := Some(AfterSeal(net.server.keys.value)))
    requires net'.s2c == net.s2c + [SealedWire(net.server.keys.value, m)]
    ensures Calm(cfg, net')
  {
    hide Linked, Carried, SealedWire, AllOrdinary, Asking, Told;
    CarriesSealed(net.server.keys.value, m);
    PushOrdinary(net.s2c, SealedWire(net.server.keys.value, m));
    LinkedSend(net.server.keys.value, net.client.keys.value, net.s2c, net.client.tag, m);
    LinkedOther(net.client.keys.value, net.server.keys.value, net'.server.keys.value, net.c2s, net.client.tag);
  }

  lemma RekeyingServer(cfg: Config, net: Net)
    requires Inv(cfg, net)
    ensures !net.server.rekeying <==> Calm(cfg, net)
  {
    hide Live, Linked, Asking, EndsIn, AllOrdinary, Carried;
  }

  lemma ServerSendKeeps(cfg: Config, net: Net, typ: Byte, payload: Bytes, d: Draw)
    requires Inv(cfg, net) && Roomy(net) && Ordinary(typ) && |payload| < TWO16
    ensures Inv(cfg, ServerActs(net, ServerSend(net.server, typ, payload, Sure(d))))
  {
    hide Inv, Calm, CarriedAll, SealedWire, Told;
    InvLive(cfg, net);
    RekeyingServer(cfg, net);
    var s := net.server;
    var net' := ServerActs(net, ServerSend(s, typ, payload, Sure(d)));
    if !s.rekeying {
      CalmServerSends(cfg, net, net', Message(d.nonce, s.tag, typ, payload, d.padding));
      CalmInv(cfg, net');
    } else {
      assert net.s2c + [] == net.s2c;
      SameEnds(cfg, net, net');
    }
  }

  /** Message 3 arrives: both ends are on the new key. */
  lemma SwitchedToServer(cfg: Config, net: Net, d: Draw)
    requires Matched(cfg) && Switched(cfg, net)
    ensures var net' := Act(cfg, net, ToServer(d));
            && Calm(cfg, net') && net'.server.keys.value.pair == net.client.keys.value.pair
            && net'.client == net.client && net'.c2s == net.c2s[1..] && net'.s2c == []
  {
    hide Offered, Carried, OpenWire;
    var w := net.c2s[0];
    var last := KeyState(net.server.keys.value.pair, true, Carried(w).num + 1, RS.Fresh(0));
    LinkedReceive(last, net.server.keys.value, [w], net.client.tag);
    assert Carries([w][0], last.SendKey(), net.client.tag, last.sendSeq - 1 + 0);
    assert net.s2c + [] == net.s2c;
  }

  /** What an ordinary frame does to the server: its keys count it, and a keepalive is echoed. */
  lemma OrdinaryServerEffect(cfg: Config, net: Net, d: Draw)
    requires Live(cfg, net) && net.c2s != [] && !net.server.rekeying
    requires var w := net.c2s[0];
             OpenWire(net.server.keys.value, w).1 == Opened(Carried(w)) && Carried(w).tag == net.server.tag
             && Ordinary(Carried(w).typ)
    ensures var net', f := Act(cfg, net, ToServer(d)), Carried(net.c2s[0]);
            var k := OpenWire(net.server.keys.value, net.c2s[0]).0;
            && net'.client == net.client && net'.c2s == net.c2s[1..]
            && (if f.typ == MSG_KEEPALIVE then
                  && net'.server == net.server.(keys := Some(AfterSeal(k)))
                  && net'.s2c == net.s2c
                     + [SealedWire(k, Message(d.nonce, net.server.tag, MSG_KEEPALIVE, f.payload, d.padding))]
                else net'.server == net.server.(keys := Some(k)) && net'.s2c == net.s2c)
  {
    hide OpenWire, Carried, CarriedAll, SealedWire, Parse, Told;
    assert net.s2c + [] == net.s2c;
  }

  lemma AskingPop(cfg: Config, c: Client, q: seq<Wire>)
    requires Asking(cfg, c, q) && q != [] && (|q| > 1 || !c.rekeying)
    ensures Asking(cfg, c, q[1..]) && Ordinary(Carried(q[0]).typ)
  {
    hide Carried, AllOrdinary, EndsIn;
    if c.rekeying {
      PopEnd(q, MSG_REKEY1, cfg.client.noise.write1(c.rekeyHs.value.e, []));
    } else {
      PopOrdinary(q);
    }
  }

  /** The server's reaction to a frame that is not part of a rekey. */
  lemma CalmOrdinaryToServer(cfg: Config, net: Net, d: Draw)
    requires Calm(cfg, net) && Roomy(net) && net.c2s != []
    requires |net.c2s| > 1 || !net.client.rekeying
    ensures Calm(cfg, Act(cfg, net, ToServer(d)))
  {
    hide Offered, Carried, OpenWire, SealedWire, AllOrdinary, Asking, Linked, Act, Told;
    var c, s, q := net.client, net.server, net.c2s;
    AskingPop(cfg, c, q);
    LinkedHead(c.keys.value, s.keys.value, q, c.tag);
    OrdinaryServerEffect(cfg, net, d);
    LinkedReceive(c.keys.value, s.keys.value, q, c.tag);
    var k := OpenWire(s.keys.value, q[0]).0;
    LinkedCounted(s.keys.value, c.keys.value, k, net.s2c, c.tag);
    var mid := net.(server := s.(keys := Some(k)), c2s := q[1..]);
    assert Calm(cfg, mid);
    if Carried(q[0]).typ == MSG_KEEPALIVE {
      EchoBounded(s.keys.value, q[0]);
      CalmServerSends(cfg, mid, Act(cfg, net, ToServer(d)),
                      Message(d.nonce, s.tag, MSG_KEEPALIVE, Carried(q[0]).payload, d.padding));
    } else {
      CalmSame(cfg, mid, Act(cfg, net, ToServer(d)));
    }
  }

  lemma EchoBounded(k: KeyState, w: Wire)
    requires OpenWire(k, w).1 == Opened(Carried(w))
    ensures |Carried(w).payload| < TWO16
  {
    hide OpenWire, Carried;
    OpenStep(k, w);
    OfferedBounded(k.RecvKey(), w);
  }

  lemma CalmSame(cfg: Config, net: Net, net': Net)
    requires Calm(cfg, net)
    requires net'.client == net.client && net'.server == net.server && net'.c2s == net.c2s && net'.s2c == net.s2c
    ensures Calm(cfg, net')
  {
    hide Linked, Asking, AllOrdinary, Carried, Told;
  }

  /** Message 1 arrives: it is alone in the channel, and the server answers it. */
  lemma CalmRekeyToServer(cfg: Config, net: Net, d: Draw)
    requires Matched(cfg) && Calm(cfg, net) && Roomy(net) && |net.c2s| == 1 && net.client.rekeying
    ensures var net' := Act(cfg, net, ToServer(d));
            && Answered(cfg, net') && net'.server.rekeyHs == Some(Pair(net.client.rekeyHs.value.e, d.ephemeral))
            && |net'.s2c| == |net.s2c| + 1 && net'.clientGone == net.clientGone && !net'.serverGone
  {
    hide Offered, Carried, OpenWire, SealedWire;
    var c, s, w := net.client, net.server, net.c2s[0];
    LinkedReceive(c.keys.value, s.keys.value, net.c2s, c.tag);
    assert Carries(w, c.keys.value.SendKey(), c.tag, c.keys.value.sendSeq - 1 + 0);
    var k := OpenWire(s.keys.value, w).0;
    var e := c.rekeyHs.value.e;
    assert cfg.server.noise.read1(cfg.client.noise.write1(e, [])) == Some((e, []));
    var msg := cfg.server.noise.write2(e, d.ephemeral);
    assert |msg| <= 128;
    var m := Message(d.nonce, s.tag, MSG_REKEY2, msg, d.padding);
    CarriesSealed(k, m);
    LinkedSend(k, c.keys.value, net.s2c, s.tag, m);
    PushEnd(net.s2c, SealedWire(k, m));
  }

  lemma ToServerKeeps(cfg: Config, net: Net, d: Draw)
    requires Matched(cfg) && Inv(cfg, net) && Roomy(net)
    ensures Inv(cfg, Act(cfg, net, ToServer(d)))
  {
    hide Linked, Carried, Act;
    if net.c2s == [] {
      ToServerIdle(cfg, net, d);
    } else if Switched(cfg, net) {
      SwitchedToServer(cfg, net, d);
    } else if net.client.rekeying && |net.c2s| == 1 {
      CalmRekeyToServer(cfg, net, d);
    } else {
      CalmOrdinaryToServer(cfg, net, d);
    }
  }

  lemma ToServerIdle(cfg: Config, net: Net, d: Draw)
    requires net.c2s == []
    ensures Act(cfg, net, ToServer(d)) == net
  {
  }

  lemma ToClientIdle(cfg: Config, net: Net, d: Draw)
    requires net.s2c == []
    ensures Act(cfg, net, ToClient(d)) == net
  {
  }

  /** What an ordinary frame does to the client: its keys count it, and the first one brings the address. */
  lemma OrdinaryEffect(cfg: Config, net: Net, d: Draw)
    requires Live(cfg, net) && net.s2c != []
    requires var w := net.s2c[0];
             OpenWire(net.client.keys.value, w).1 == Opened(Carried(w)) && Carried(w).tag == net.client.tag
             && Ordinary(Carried(w).typ) && (!net.client.connected ==> Assigning(cfg, net.server.ip.value, net.s2c))
    ensures var net' := Act(cfg, net, ToClient(d));
            var c := net.client.(keys := Some(OpenWire(net.client.keys.value, net.s2c[0]).0));
            && net'.client == (if c.connected then c
                               else c.(connected := true, address := ParseAssign(Told(cfg, net.server.ip.value))))
            && net'.server == net.server && net'.c2s == net.c2s && net'.s2c == net.s2c[1..]
  {
    hide OpenWire, Carried, CarriedAll, AssignPayload, ContinueRekey;
    assert net.c2s + [] == net.c2s;
    assert ParseAssign(Told(cfg, net.server.ip.value)).Some?;
  }

  lemma CalmTakes(cfg: Config, net: Net, d: Draw)
    requires Calm(cfg, net) && net.s2c != []
    ensures Calm(cfg, Act(cfg, net, ToClient(d)))
  {
    hide OpenWire, Carried, Act, Linked, AllOrdinary, EndsIn, Told;
    var c, s, q := net.client.keys.value, net.server.keys.value, net.s2c;
    LinkedHead(s, c, q, net.client.tag);
    PopOrdinary(q);
    OrdinaryEffect(cfg, net, d);
    LinkedReceive(s, c, q, net.client.tag);
    LinkedCounted(c, s, OpenWire(c, q[0]).0, net.c2s, net.client.tag);
  }

  /** What a sender has received does not matter to what it sends. */
  lemma LinkedCounted(send: KeyState, recv: KeyState, send': KeyState, q: seq<Wire>, tag: Tag)
    requires Linked(send, recv, q, tag) && send'.SendKey() == send.SendKey() && send'.sendSeq == send.sendSeq
    ensures Linked(send', recv, q, tag)
  {
  }

  lemma AnsweredTakes(cfg: Config, net: Net, d: Draw)
    requires Answered(cfg, net) && |net.s2c| > 1
    ensures Answered(cfg, Act(cfg, net, ToClient(d)))
  {
    hide OpenWire, Carried, Act, Linked, EndsIn, Told;
    var c, s, q := net.client.keys.value, net.server.keys.value, net.s2c;
    LinkedHead(s, c, q, net.client.tag);
    PopEnd(q, MSG_REKEY2, cfg.client.noise.write2(net.server.rekeyHs.value.client, net.server.rekeyHs.value.server));
    OrdinaryEffect(cfg, net, d);
    LinkedReceive(s, c, q, net.client.tag);
    LinkedCounted(c, s, OpenWire(c, q[0]).0, net.c2s, net.client.tag);
  }

  /** What message 2 makes the client do: message 3 goes out under the old key, and the client switches. */
  lemma Rekey2Effect(cfg: Config, net: Net, d: Draw)
    requires Matched(cfg) && Live(cfg, net) && |net.s2c| == 1 && net.c2s == []
    requires net.client.connected && net.client.rekeying && net.client.rekeyHs.Some?
    requires net.client.rekeyHs.value.AwaitReply?
    requires net.server.rekeyHs.Some? && net.server.rekeyHs.value.client == net.client.rekeyHs.value.e
    requires var w := net.s2c[0];
             OpenWire(net.client.keys.value, w).1 == Opened(Carried(w)) && Carried(w).tag == net.client.tag
             && Carried(w).typ == MSG_REKEY2
             && Carried(w).payload
                == cfg.client.noise.write2(net.server.rekeyHs.value.client, net.server.rekeyHs.value.server)
    ensures var net', p := Act(cfg, net, ToClient(d)), net.server.rekeyHs.value;
            var k := OpenWire(net.client.keys.value, net.s2c[0]).0;
            var m := Message(d.nonce, net.client.tag, MSG_REKEY3,
                             cfg.client.noise.write3(p.client, p.server, cfg.client.identity), d.padding);
            && net'.client == net.client.(keys := Some(NewKeys(true, p)), rekeying := false, rekeyHs := None)
            && net'.server == net.server && net'.s2c == [] && net'.c2s == [SealedWire(k, m)]
            && |m.payload| <= 128 && net'.serverGone == net.serverGone
  {
    hide OpenWire, Carried, CarriedAll, SealedWire;
    var p := net.server.rekeyHs.value;
    assert cfg.client.noise.read2(p.client, cfg.client.noise.write2(p.client, p.server)) == Some(p.server);
  }

  lemma RekeyToClient(cfg: Config, net: Net, d: Draw)
    requires Matched(cfg) && Answered(cfg, net) && Roomy(net) && |net.s2c| == 1
    ensures var net' := Act(cfg, net, ToClient(d));
            && Switched(cfg, net') && |net'.c2s| == 1 && net'.server == net.server && !net'.client.rekeying
            && net'.serverGone == net.serverGone
  {
    hide Offered, Carried, OpenWire, SealedWire, Act, Matched, Told;
    var c, s, w := net.client, net.server, net.s2c[0];
    LinkedHead(s.keys.value, c.keys.value, net.s2c, c.tag);
    Rekey2Effect(cfg, net, d);
    LinkedReceive(s.keys.value, c.keys.value, net.s2c, c.tag);
    var k, p := OpenWire(c.keys.value, w).0, s.rekeyHs.value;
    var m := Message(d.nonce, c.tag, MSG_REKEY3, cfg.client.noise.write3(p.client, p.server, cfg.client.identity),
                     d.padding);
    CarriesSealed(k, m);
    LinkedSend(k, s.keys.value, [], c.tag, m);
    assert [] + [SealedWire(k, m)] == [SealedWire(k, m)];
  }

  lemma ToClientKeeps(cfg: Config, net: Net, d: Draw)
    requires Matched(cfg) && Inv(cfg, net) && Roomy(net)
    ensures Inv(cfg, Act(cfg, net, ToClient(d)))
  {
    hide Linked, Carried, Act, Calm, Asking, EndsIn;
    if net.s2c == [] {
      ToClientIdle(cfg, net, d);
    } else if Calm(cfg, net) {
      CalmTakes(cfg, net, d);
    } else if |net.s2c| == 1 {
      RekeyToClient(cfg, net, d);
    } else {
      AnsweredTakes(cfg, net, d);
    }
  }

  lemma ClosesKeeps(cfg: Config, net: Net, step: Step)
    requires Matched(cfg) && Inv(cfg, net) && Roomy(net) && (step.ClientCloses? || step.ServerCloses?)
    ensures Inv(cfg, Act(cfg, net, step))
  {
    hide Matched, Inv, Roomy, ClientSend, ServerSend, ClientActs, ServerActs;
    var mid := net;
    if step.ClientCloses? {
      if step.polite && net.client.connected {
        ClientSendKeeps(cfg, net, MSG_CLOSE, [], step.d);
        mid := ClientActs(net, ClientSend(net.client, MSG_CLOSE, [], Sure(step.d)));
      }
      SameEnds(cfg, mid, mid.(clientGone := true));
    } else {
      if step.polite {
        ServerSendKeeps(cfg, net, MSG_CLOSE, [], step.d);
        mid := ServerActs(net, ServerSend(net.server, MSG_CLOSE, [], Sure(step.d)));
      }
      SameEnds(cfg, mid, mid.(serverGone := true));
    }
  }

  /** A packet is sent as data, or nothing happens. */
  lemma ReadsAct(cfg: Config, net: Net, packet: Bytes, d: Draw)
    ensures ClientPacket(cfg.client, net.client, packet, d) == ClientSend(net.client, MSG_DATA, packet, d)
            || ClientActs(net, ClientPacket(cfg.client, net.client, packet, d)) == net
    ensures ServerPacket(net.server, packet, d) == ServerSend(net.server, MSG_DATA, packet, d)
            || ServerActs(net, ServerPacket(net.server, packet, d)) == net
  {
    hide ClientSend, ServerSend, IsIPv4;
    assert net.c2s + [] == net.c2s && net.up.sent + CarriedAll([]) == net.up.sent && net.down.tun + [] == net.down.tun;
    assert net.s2c + [] == net.s2c && net.down.sent + CarriedAll([]) == net.down.sent && net.up.tun + [] == net.up.tun;
  }

  lemma ReadsKeeps(cfg: Config, net: Net, step: Step)
    requires Matched(cfg) && Inv(cfg, net) && Roomy(net) && (step.ClientReads? || step.ServerReads?)
    ensures Inv(cfg, Act(cfg, net, step))
  {
    hide Matched, Inv, Roomy, ClientSend, ServerSend, ClientPacket, ServerPacket, ClientActs, ServerActs;
    ReadsAct(cfg, net, step.packet, Sure(step.d));
    if |step.packet| < TWO16 {
      ServerSendKeeps(cfg, net, MSG_DATA, step.packet, step.d);
      if net.client.connected {
        ClientSendKeeps(cfg, net, MSG_DATA, step.packet, step.d);
      }
    }
  }

  lemma SendsKeeps(cfg: Config, net: Net, step: Step)
    requires Matched(cfg) && Inv(cfg, net) && Roomy(net) && (step.ClientSends? || step.ServerSends?)
    ensures Inv(cfg, Act(cfg, net, step))
  {
    hide Matched, Inv, Roomy, ClientSend, ServerSend, ClientActs, ServerActs;
    if step.ClientSends? && net.client.connected && Local(step.typ, true) && |step.payload| < TWO16 {
      ClientSendKeeps(cfg, net, step.typ, step.payload, step.d);
    } else if step.ServerSends? && Local(step.typ, false) && |step.payload| < TWO16 {
      ServerSendKeeps(cfg, net, step.typ, step.payload, step.d);
    }
  }

  lemma StepKeeps(cfg: Config, net: Net, step: Step)
    requires Matched(cfg) && Inv(cfg, net) && Roomy(net)
    ensures Inv(cfg, Apply(cfg, net, step))
  {
    hide Matched, Inv, Roomy, Act, Absent, Panics;
    match step
    case ClientReads(packet, d) => ReadsKeeps(cfg, net, step);
    case ServerReads(packet, d) => ReadsKeeps(cfg, net, step);
    case ClientSends(typ, payload, d) => SendsKeeps(cfg, net, step);
    case ClientRekeys(d) => ClientRekeysKeeps(cfg, net, d);
    case ServerSends(typ, payload, d) => SendsKeeps(cfg, net, step);
    case ClientCloses(polite, d) => ClosesKeeps(cfg, net, step);
    case ServerCloses(polite, d) => ClosesKeeps(cfg, net, step);
    case ToServer(d) => ToServerKeeps(cfg, net, d);
    case ToClient(d) => ToClientKeeps(cfg, net, d);
  }

  // ---- Whole runs ----

  /** The frame at the head of either channel opens, under the key it was sealed with and with the session's tag. */
  predicate HeadsOpen(net: Net)
    requires net.client.keys.Some? && net.server.keys.Some?
  {
    && (net.c2s != [] ==>
          && Authentic(net.server.keys.value, net.c2s[0])
          && OpenWire(net.server.keys.value, net.c2s[0]).1 == Opened(Carried(net.c2s[0]))
          && Carried(net.c2s[0]).tag == net.server.tag)
    && (net.s2c != [] ==>
          && Authentic(net.client.keys.value, net.s2c[0])
          && OpenWire(net.client.keys.value, net.s2c[0]).1 == Opened(Carried(net.s2c[0]))
          && Carried(net.s2c[0]).tag == net.client.tag)
  }

  lemma LinkedHead(send: KeyState, recv: KeyState, q: seq<Wire>, tag: Tag)
    requires Linked(send, recv, q, tag) && q != []
    ensures Authentic(recv, q[0]) && OpenWire(recv, q[0]).1 == Opened(Carried(q[0])) && Carried(q[0]).tag == tag
  {
    hide Carried, OpenWire, ParseInner;
    LinkedReceive(send, recv, q, tag);
    assert Carries(q[0], send.SendKey(), tag, send.sendSeq - |q| + 0);
  }

  lemma InvHeadsOpen(cfg: Config, net: Net)
    requires Inv(cfg, net)
    ensures net.client.keys.Some? && net.server.keys.Some? && HeadsOpen(net)
  {
    hide Linked, Carried, OpenWire, Asking, AllOrdinary, EndsIn, Authentic;
    var c, s, tag := net.client.keys.value, net.server.keys.value, net.client.tag;
    if net.c2s != [] {
      if Switched(cfg, net) {
        var w := net.c2s[0];
        LinkedHead(KeyState(s.pair, true, Carried(w).num + 1, RS.Fresh(0)), s, [w], tag);
      } else {
        LinkedHead(c, s, net.c2s, tag);
      }
    }
    if net.s2c != [] {
      LinkedHead(s, c, net.s2c, tag);
    }
  }

  lemma ClientActsConserves(net: Net, r: ClientStep)
    requires Conserved(net)
    ensures Conserved(ClientActs(net, r))
  {
    hide CarriedAll;
    CarriedAllAppend(net.c2s, r.sends);
  }

  lemma ServerActsConserves(net: Net, r: ServerStep)
    requires Conserved(net)
    ensures Conserved(ServerActs(net, r))
  {
    hide CarriedAll;
    CarriedAllAppend(net.s2c, r.sends);
  }

  lemma StepConserves(cfg: Config, net: Net, step: Step)
    requires Inv(cfg, net) && Conserved(net)
    ensures Conserved(Apply(cfg, net, step))
  {
    hide Inv, Carried, CarriedAll, OpenWire, ClientSend, ServerSend, StartRekey, ClientReceive, ServerReceive, Panics;
    hide ClientPacket, ServerPacket;
    InvHeadsOpen(cfg, net);
    match step
    case ClientReads(packet, d) => ClientActsConserves(net, ClientPacket(cfg.client, net.client, packet, Sure(d)));
    case ServerReads(packet, d) => ServerActsConserves(net, ServerPacket(net.server, packet, Sure(d)));
    case ClientSends(typ, payload, d) => ClientActsConserves(net, ClientSend(net.client, typ, payload, Sure(d)));
    case ClientRekeys(d) => ClientActsConserves(net, StartRekey(cfg.client, net.client, Sure(d)));
    case ServerSends(typ, payload, d) => ServerActsConserves(net, ServerSend(net.server, typ, payload, Sure(d)));
    case ClientCloses(polite, d) => ClientActsConserves(net, ClientSend(net.client, MSG_CLOSE, [], Sure(d)));
    case ServerCloses(polite, d) => ServerActsConserves(net, ServerSend(net.server, MSG_CLOSE, [], Sure(d)));
    case ToServer(d) =>
      if net.c2s != [] {
        var popped := net.(c2s := net.c2s[1..], up := net.up.(got := net.up.got + [Carried(net.c2s[0])]));
        PopUpConserves(net, popped);
        ServerActsConserves(popped, ServerReceive(cfg.server, net.server, net.c2s[0], Sure(d)));
      }
    case ToClient(d) =>
      if net.s2c != [] {
        var popped := net.(s2c := net.s2c[1..], down := net.down.(got := net.down.got + [Carried(net.s2c[0])]));
        PopDownConserves(net, popped);
        ClientActsConserves(popped, ClientReceive(cfg.client, net.client, net.s2c[0], Sure(d)));
      }
  }

  lemma PopUpConserves(net: Net, popped: Net)
    requires Conserved(net) && net.c2s != []
    requires popped == net.(c2s := net.c2s[1..], up := net.up.(got := net.up.got + [Carried(net.c2s[0])]))
    ensures Conserved(popped)
  {
    hide Carried, CarriedAll;
    CarriedAllPop(net.c2s);
  }

  lemma PopDownConserves(net: Net, popped: Net)
    requires Conserved(net) && net.s2c != []
    requires popped == net.(s2c := net.s2c[1..], down := net.down.(got := net.down.got + [Carried(net.s2c[0])]))
    ensures Conserved(popped)
  {
    hide Carried, CarriedAll;
    CarriedAllPop(net.s2c);
  }

  // ---- What reaches the TUNs ----

  predicate ServerTakes(cfg: ServerConfig, ip: nat, f: Frame) {
    f.typ == MSG_DATA && Admissible(cfg, ip, f.payload)
  }

  predicate ClientTakes(cfg: ClientConfig, f: Frame) {
    f.typ == MSG_DATA && |f.payload| <= cfg.mtu && Version4(f.payload)
  }

  /** The packets the server writes out of the frames it opened, in order. */
  function ServerPackets(cfg: ServerConfig, ip: nat, fs: seq<Frame>): seq<Bytes> {
    if fs == [] then []
    else
      var f := fs[|fs| - 1];
      ServerPackets(cfg, ip, fs[..|fs| - 1]) + if ServerTakes(cfg, ip, f) then [f.payload] else []
  }

  function ClientPackets(cfg: ClientConfig, fs: seq<Frame>): seq<Bytes> {
    if fs == [] then []
    else
      var f := fs[|fs| - 1];
      ClientPackets(cfg, fs[..|fs| - 1]) + if ClientTakes(cfg, f) then [f.payload] else []
  }

  predicate Piped(cfg: Config, net: Net) {
    && net.server.ip.Some?
    && net.up.tun == ServerPackets(cfg.server, net.server.ip.value, net.up.got)
    && net.down.tun == ClientPackets(cfg.client, net.down.got)
  }

  lemma PacketsPush(cfg: Config, ip: nat, fs: seq<Frame>, f: Frame)
    ensures ServerPackets(cfg.server, ip, fs + [f])
         == ServerPackets(cfg.server, ip, fs) + if ServerTakes(cfg.server, ip, f) then [f.payload] else []
    ensures ClientPackets(cfg.client, fs + [f])
         == ClientPackets(cfg.client, fs) + if ClientTakes(cfg.client, f) then [f.payload] else []
  {
    hide ServerTakes, ClientTakes;
    assert (fs + [f])[..|fs|] == fs;
  }

  lemma ServerTun(cfg: ServerConfig, s: Server, w: Wire, d: Draw)
    requires s.keys.Some? && s.ip.Some?
    requires OpenWire(s.keys.value, w).1 == Opened(Carried(w)) && Carried(w).tag == s.tag
    ensures ServerReceive(cfg, s, w, d).server.ip == s.ip
    ensures ServerReceive(cfg, s, w, d).tun
         == if ServerTakes(cfg, s.ip.value, Carried(w)) then [Carried(w).payload] else []
  {
    hide Carried, OpenWire, SealedWire, ServerData, Admissible;
    DataExact(cfg, s.(keys := Some(OpenWire(s.keys.value, w).0)), Carried(w).payload);
  }

  lemma ClientTun(cfg: ClientConfig, c: Client, w: Wire, d: Draw)
    requires c.keys.Some? && (c.connected || Carried(w).typ != MSG_DATA)
    requires OpenWire(c.keys.value, w).1 == Opened(Carried(w)) && Carried(w).tag == c.tag
    ensures ClientReceive(cfg, c, w, d).tun == if ClientTakes(cfg, Carried(w)) then [Carried(w).payload] else []
  {
    hide Carried, OpenWire, SealedWire, ParseAssign, IsIPv4, Version4;
    IsIPv4Exact(Carried(w).payload);
  }

  /** Until the client is connected, what comes next is its assignment. */
  lemma FirstAssigns(cfg: Config, net: Net)
    requires Inv(cfg, net) && !net.client.connected && net.s2c != []
    ensures net.server.ip.Some? && Carried(net.s2c[0]).typ == MSG_ASSIGN
    ensures Carried(net.s2c[0]).payload == Told(cfg, net.server.ip.value)
  {
    hide Carried, Linked;
  }

  lemma StepPipes(cfg: Config, net: Net, step: Step)
    requires Inv(cfg, net) && Piped(cfg, net)
    ensures Piped(cfg, Apply(cfg, net, step))
  {
    hide Inv, Carried, CarriedAll, OpenWire, SealedWire, ClientReceive, ServerReceive, Panics;
    hide ServerTakes, ClientTakes, ServerPackets, ClientPackets;
    InvHeadsOpen(cfg, net);
    match step
    case ClientReads(packet, d) =>
    case ServerReads(packet, d) =>
    case ClientSends(typ, payload, d) =>
    case ClientRekeys(d) =>
    case ServerSends(typ, payload, d) =>
    case ClientCloses(polite, d) =>
    case ServerCloses(polite, d) =>
    case ToServer(d) =>
      if net.c2s != [] {
        ServerTun(cfg.server, net.server, net.c2s[0], Sure(d));
        PacketsPush(cfg, net.server.ip.value, net.up.got, Carried(net.c2s[0]));
      }
    case ToClient(d) =>
      if net.s2c != [] {
        if !net.client.connected {
          FirstAssigns(cfg, net);
        }
        ClientTun(cfg.client, net.client, net.s2c[0], Sure(d));
        PacketsPush(cfg, net.server.ip.value, net.down.got, Carried(net.s2c[0]));
      }
  }

  lemma {:induction false} RunKeeps(cfg: Config, net: Net, steps: seq<Step>)
    requires Matched(cfg) && Inv(cfg, net) && Conserved(net) && Piped(cfg, net) && RoomyRun(cfg, net, steps)
    ensures Inv(cfg, Run(cfg, net, steps)) && Conserved(Run(cfg, net, steps)) && Piped(cfg, Run(cfg, net, steps))
  {
    hide Inv, Conserved, Piped, Matched, Roomy, Apply;
    if steps != [] {
      var k := |steps| - 1;
      var before := steps[..k];
      forall i | 0 <= i < |before|
        ensures Roomy(Run(cfg, net, before[..i]))
      {
        assert before[..i] == steps[..i];
      }
      RunKeeps(cfg, net, before);
      StepKeeps(cfg, Run(cfg, net, before), steps[k]);
      StepConserves(cfg, Run(cfg, net, before), steps[k]);
      StepPipes(cfg, Run(cfg, net, before), steps[k]);
    }
  }

  /**
   * In every run over lossless channels, with any number of rekeys, any traffic between them and
   * either end closing at any time, the next frame to arrive at either end opens under exactly the key
   * it was sealed with, the frames opened so far are exactly the oldest ones sealed, and each TUN has
   * seen exactly the acceptable packets among them, once and in order.
   */
  lemma NoFrameLost(cfg: Config, p: Pair, tag: Tag, ip: nat, d: Draw, steps: seq<Step>)
    requires Matched(cfg) && RoomyRun(cfg, Begin(cfg, p, tag, ip, d), steps)
    ensures var net := Run(cfg, Begin(cfg, p, tag, ip, d), steps);
            && net.client.keys.Some? && net.server.keys.Some?
            && HeadsOpen(net)
            && net.up.got <= net.up.sent && net.down.got <= net.down.sent
            && net.up.sent[|net.up.got|..] == CarriedAll(net.c2s)
            && net.down.sent[|net.down.got|..] == CarriedAll(net.s2c)
            && Piped(cfg, net)
  {
    hide Inv, Matched, Begin, Run, RoomyRun, HeadsOpen, CarriedAll, Calm, Piped;
    BeginInv(cfg, p, tag, ip, d);
    BeginPiped(cfg, p, tag, ip, d);
    var net := Begin(cfg, p, tag, ip, d);
    CalmInv(cfg, net);
    RunKeeps(cfg, net, steps);
    InvHeadsOpen(cfg, Run(cfg, net, steps));
  }

  lemma BeginPiped(cfg: Config, p: Pair, tag: Tag, ip: nat, d: Draw)
    requires Matched(cfg)
    ensures Piped(cfg, Begin(cfg, p, tag, ip, d))
  {
    hide Carried, SealedWire;
    assert cfg.server.noise.read3(p.client, p.server, cfg.client.noise.write3(p.client, p.server, cfg.client.identity))
        == Some(cfg.client.identity);
  }

  lemma CalmInv(cfg: Config, net: Net)
    requires Calm(cfg, net)
    ensures Inv(cfg, net)
  {
  }

  // ---- A polite close ----

  /** A close is the last frame its sender seals. */
  predicate ClosedLast(sent: seq<Frame>, gone: bool) {
    forall i :: 0 <= i < |sent| && sent[i].typ == MSG_CLOSE ==> gone && i == |sent| - 1
  }

  predicate NoClose(ws: seq<Wire>) {
    forall i :: 0 <= i < |ws| ==> Carried(ws[i]).typ != MSG_CLOSE
  }

  lemma ServerRepliesNoClose(cfg: ServerConfig, s: Server, w: Wire, d: Draw)
    requires s.keys.Some?
    ensures NoClose(ServerReceive(cfg, s, w, d).sends)
  {
    hide Carried, OpenWire, SealedWire, Parse;
    var (k, r) := OpenWire(s.keys.value, w);
    if r.Opened? && r.frame.typ == MSG_KEEPALIVE {
      SealedHeader(k, Message(d.nonce, s.tag, MSG_KEEPALIVE, r.frame.payload, d.padding));
    } else if r.Opened? && r.frame.typ == MSG_REKEY1 && cfg.noise.read1(r.frame.payload).Some? {
      var m2 := cfg.noise.write2(cfg.noise.read1(r.frame.payload).value.0, d.ephemeral);
      SealedHeader(k, Message(d.nonce, s.tag, MSG_REKEY2, m2, d.padding));
    }
  }

  lemma ClientRepliesNoClose(cfg: ClientConfig, c: Client, w: Wire, d: Draw)
    requires c.keys.Some?
    ensures NoClose(ClientReceive(cfg, c, w, d).sends)
  {
    hide Carried, OpenWire, SealedWire, ParseAssign;
    var (k, r) := OpenWire(c.keys.value, w);
    if r.Opened? && c.rekeyHs.Some? && c.rekeyHs.value.AwaitReply?
        && cfg.noise.read2(c.rekeyHs.value.e, r.frame.payload).Some? {
      var e := c.rekeyHs.value.e;
      var m3 := cfg.noise.write3(e, cfg.noise.read2(e, r.frame.payload).value, cfg.identity);
      SealedHeader(k, Message(d.nonce, c.tag, MSG_REKEY3, m3, d.padding));
    }
  }

  lemma ClientSendHeader(c: Client, typ: Byte, pt: Bytes, d: Draw)
    ensures var ws := ClientSend(c, typ, pt, d).sends; |ws| <= 1 && (ws != [] ==> Carried(ws[0]).typ == typ)
  {
    hide Carried, SealedWire;
    if c.keys.Some? {
      SealedHeader(c.keys.value, Message(d.nonce, c.tag, typ, pt, d.padding));
    }
  }

  lemma ServerSendHeader(s: Server, typ: Byte, pt: Bytes, d: Draw)
    ensures var ws := ServerSend(s, typ, pt, d).sends; |ws| <= 1 && (ws != [] ==> Carried(ws[0]).typ == typ)
  {
    hide Carried, SealedWire;
    if s.keys.Some? {
      SealedHeader(s.keys.value, Message(d.nonce, s.tag, typ, pt, d.padding));
    }
  }

  lemma StartRekeyNoClose(cfg: ClientConfig, c: Client, d: Draw)
    ensures NoClose(StartRekey(cfg, c, d).sends)
  {
    hide Carried, SealedWire;
    if c.keys.Some? {
      SealedHeader(c.keys.value, Message(d.nonce, c.tag, MSG_REKEY1, cfg.noise.write1(d.ephemeral, []), d.padding));
    }
  }

  predicate Closing(net: Net) {
    ClosedLast(net.up.sent, net.clientGone) && ClosedLast(net.down.sent, net.serverGone)
  }

  lemma StepCloses(cfg: Config, net: Net, step: Step)
    requires Closing(net)
    ensures Closing(Apply(cfg, net, step))
  {
    hide Carried, OpenWire, SealedWire, ClientSend, ServerSend, StartRekey, ClientReceive, ServerReceive, Panics;
    hide IsIPv4;
    match step
    case ClientReads(packet, d) => ClientSendHeader(net.client, MSG_DATA, packet, Sure(d));
    case ServerReads(packet, d) => ServerSendHeader(net.server, MSG_DATA, packet, Sure(d));
    case ClientSends(typ, payload, d) => ClientSendHeader(net.client, typ, payload, Sure(d));
    case ClientRekeys(d) => StartRekeyNoClose(cfg.client, net.client, Sure(d));
    case ServerSends(typ, payload, d) => ServerSendHeader(net.server, typ, payload, Sure(d));
    case ClientCloses(polite, d) => ClientSendHeader(net.client, MSG_CLOSE, [], Sure(d));
    case ServerCloses(polite, d) => ServerSendHeader(net.server, MSG_CLOSE, [], Sure(d));
    case ToServer(d) =>
      if net.c2s != [] && net.server.keys.Some? {
        ServerRepliesNoClose(cfg.server, net.server, net.c2s[0], Sure(d));
      }
    case ToClient(d) =>
      if net.s2c != [] && net.client.keys.Some? {
        ClientRepliesNoClose(cfg.client, net.client, net.s2c[0], Sure(d));
      }
  }

  lemma {:induction false} RunCloses(cfg: Config, net: Net, steps: seq<Step>)
    requires Closing(net)
    ensures Closing(Run(cfg, net, steps))
  {
    hide Closing, Apply;
    if steps != [] {
      RunCloses(cfg, net, steps[..|steps| - 1]);
      StepCloses(cfg, Run(cfg, net, steps[..|steps| - 1]), steps[|steps| - 1]);
    }
  }

  predicate HasClose(fs: seq<Frame>) {
    exists i :: 0 <= i < |fs| && fs[i].typ == MSG_CLOSE
  }

  /** An end that receives a close has received everything the other end ever sealed for it. */
  lemma CloseDrains(cfg: Config, p: Pair, tag: Tag, ip: nat, d: Draw, steps: seq<Step>)
    requires Matched(cfg) && RoomyRun(cfg, Begin(cfg, p, tag, ip, d), steps)
    ensures var net := Run(cfg, Begin(cfg, p, tag, ip, d), steps);
            && (HasClose(net.up.got) ==> net.up.got == net.up.sent && net.clientGone)
            && (HasClose(net.down.got) ==> net.down.got == net.down.sent && net.serverGone)
  {
    NoFrameLost(cfg, p, tag, ip, d, steps);
    BeginCloses(cfg, p, tag, ip, d);
    hide Run, Begin, RoomyRun, Matched, HeadsOpen, CarriedAll, Piped;
    RunCloses(cfg, Begin(cfg, p, tag, ip, d), steps);
  }

  lemma BeginCloses(cfg: Config, p: Pair, tag: Tag, ip: nat, d: Draw)
    ensures Closing(Begin(cfg, p, tag, ip, d))
  {
    hide Carried, SealedWire;
    SealedHeader(NewKeys(false, p), Message(d.nonce, tag, MSG_ASSIGN, Told(cfg, ip), d.padding));
  }

  /** An end that has received a close is gone; and if it did not close by itself, it is gone for no other reason. */
  predicate Ended(net: Net, clientCloses: bool, serverCloses: bool) {
    && (HasClose(net.up.got) ==> net.serverGone) && (HasClose(net.down.got) ==> net.clientGone)
    && (net.serverGone ==> serverCloses || HasClose(net.up.got))
    && (net.clientGone ==> clientCloses || HasClose(net.down.got))
  }

  lemma HasClosePush(fs: seq<Frame>, f: Frame)
    ensures HasClose(fs + [f]) <==> HasClose(fs) || f.typ == MSG_CLOSE
  {
    if HasClose(fs) {
      var i :| 0 <= i < |fs| && fs[i].typ == MSG_CLOSE;
      assert (fs + [f])[i] == fs[i];
    }
    assert (fs + [f])[|fs|] == f;
  }

  lemma ServerStops(cfg: ServerConfig, s: Server, w: Wire, d: Draw)
    requires s.keys.Some? && OpenWire(s.keys.value, w).1 == Opened(Carried(w)) && Carried(w).tag == s.tag
    ensures ServerReceive(cfg, s, w, d).fatal <==> Carried(w).typ == MSG_CLOSE
  {
    hide Carried, OpenWire, SealedWire, Parse;
  }

  lemma ClientStops(cfg: Config, net: Net, d: Draw)
    requires Inv(cfg, net) && net.s2c != []
    ensures var w := net.s2c[0];
            net.client.keys.Some?
            && (ClientReceive(cfg.client, net.client, w, Sure(d)).client.keys.None? <==> Carried(w).typ == MSG_CLOSE)
  {
    hide Carried, OpenWire, SealedWire, Inv, IsIPv4, ParseAssign;
    InvHeadsOpen(cfg, net);
    if !net.client.connected {
      FirstAssigns(cfg, net);
      ParseAssigned(Assignment(cfg.server.prefix, net.server.ip.value, cfg.server.gw));
    }
  }

  lemma StepEnds(cfg: Config, net: Net, step: Step, clientCloses: bool, serverCloses: bool)
    requires Inv(cfg, net) && Ended(net, clientCloses, serverCloses)
    ensures Ended(Apply(cfg, net, step), clientCloses || step.ClientCloses?, serverCloses || step.ServerCloses?)
  {
    hide Inv, Carried, CarriedAll, OpenWire, ClientSend, ServerSend, StartRekey, ClientReceive, ServerReceive, Panics;
    hide ClientPacket, ServerPacket, HasClose;
    InvHeadsOpen(cfg, net);
    match step
    case ToServer(d) =>
      if net.c2s != [] {
        HasClosePush(net.up.got, Carried(net.c2s[0]));
        ServerStops(cfg.server, net.server, net.c2s[0], Sure(d));
      }
    case ToClient(d) =>
      if net.s2c != [] {
        HasClosePush(net.down.got, Carried(net.s2c[0]));
        ClientStops(cfg, net, d);
      }
    case _ =>
  }

  predicate ClientClosesIn(steps: seq<Step>) {
    exists i :: 0 <= i < |steps| && steps[i].ClientCloses?
  }

  predicate ServerClosesIn(steps: seq<Step>) {
    exists i :: 0 <= i < |steps| && steps[i].ServerCloses?
  }

  lemma ClosesLast(steps: seq<Step>)
    requires steps != []
    ensures var n := |steps| - 1;
            && (ClientClosesIn(steps) <==> ClientClosesIn(steps[..n]) || steps[n].ClientCloses?)
            && (ServerClosesIn(steps) <==> ServerClosesIn(steps[..n]) || steps[n].ServerCloses?)
  {
    var n := |steps| - 1;
    assert forall i :: 0 <= i < n ==> steps[..n][i] == steps[i];
  }

  lemma {:induction false} RunEnds(cfg: Config, net: Net, steps: seq<Step>)
    requires Matched(cfg) && Inv(cfg, net) && Conserved(net) && Piped(cfg, net) && RoomyRun(cfg, net, steps)
    requires Ended(net, false, false)
    ensures Ended(Run(cfg, net, steps), ClientClosesIn(steps), ServerClosesIn(steps))
  {
    hide Inv, Conserved, Piped, Matched, Roomy, Apply, Ended, ClientClosesIn, ServerClosesIn;
    if steps == [] {
      NoCloses(net);
    } else {
      var k := |steps| - 1;
      RoomyBefore(cfg, net, steps, k);
      RunEnds(cfg, net, steps[..k]);
      RunKeeps(cfg, net, steps[..k]);
      StepEnds(cfg, Run(cfg, net, steps[..k]), steps[k], ClientClosesIn(steps[..k]), ServerClosesIn(steps[..k]));
      ClosesLast(steps);
    }
  }

  lemma NoCloses(net: Net)
    requires Ended(net, false, false)
    ensures Ended(net, ClientClosesIn([]), ServerClosesIn([]))
  {
  }

  lemma RoomyBefore(cfg: Config, net: Net, steps: seq<Step>, k: nat)
    requires RoomyRun(cfg, net, steps) && k <= |steps|
    ensures RoomyRun(cfg, net, steps[..k])
  {
    hide Roomy, Run;
    forall i | 0 <= i < k
      ensures Roomy(Run(cfg, net, steps[..k][..i]))
    {
      assert steps[..k][..i] == steps[..i];
    }
  }

  /**
   * A close ends the connection at the end that receives it; and an end that does not close by itself
   * goes only when it has received one.
   */
  lemma CloseEnds(cfg: Config, p: Pair, tag: Tag, ip: nat, d: Draw, steps: seq<Step>)
    requires Matched(cfg) && RoomyRun(cfg, Begin(cfg, p, tag, ip, d), steps)
    ensures var net := Run(cfg, Begin(cfg, p, tag, ip, d), steps);
            && (HasClose(net.up.got) ==> net.serverGone) && (HasClose(net.down.got) ==> net.clientGone)
            && (net.serverGone && !ServerClosesIn(steps) ==> HasClose(net.up.got))
            && (net.clientGone && !ClientClosesIn(steps) ==> HasClose(net.down.got))
  {
    hide Inv, Matched, Begin, Run, RoomyRun, Conserved, Piped, Calm, HasClose, ClientClosesIn, ServerClosesIn;
    var net := Begin(cfg, p, tag, ip, d);
    BeginInv(cfg, p, tag, ip, d);
    BeginPiped(cfg, p, tag, ip, d);
    CalmInv(cfg, net);
    BeginEnds(cfg, p, tag, ip, d);
    RunEnds(cfg, net, steps);
  }

  lemma BeginEnds(cfg: Config, p: Pair, tag: Tag, ip: nat, d: Draw)
    ensures Ended(Begin(cfg, p, tag, ip, d), false, false)
  {
    hide Carried, SealedWire;
  }

  // ---- Delivery comes to an end ----

  /** How many deliveries a datagram can still cause, itself included. */
  function UpWeight(w: Wire): (n: nat)
    ensures n >= 1
  {
    var typ := Carried(w).typ;
    if typ == MSG_REKEY1 then 3 else if typ == MSG_KEEPALIVE then 2 else 1
  }

  function DownWeight(w: Wire): (n: nat)
    ensures n >= 1
  {
    if Carried(w).typ == MSG_REKEY2 then 2 else 1
  }

  function Sum(q: seq<Wire>, weight: Wire -> nat): nat {
    if q == [] then 0 else weight(q[0]) + Sum(q[1..], weight)
  }

  function Measure(net: Net): nat {
    Sum(net.c2s, UpWeight) + Sum(net.s2c, DownWeight)
  }

  lemma {:induction false} SumAppend(q: seq<Wire>, w: Wire, weight: Wire -> nat)
    ensures Sum(q + [w], weight) == Sum(q, weight) + weight(w)
  {
    if q == [] {
      assert Sum([w], weight) == weight(w) + Sum([w][1..], weight);
    } else {
      assert (q + [w])[1..] == q[1..] + [w];
      SumAppend(q[1..], w, weight);
    }
  }

  /** A datagram makes the server send at most one other, and a lighter one. */
  lemma ServerReplyLighter(cfg: Config, s: Server, w: Wire, d: Draw)
    requires Matched(cfg) && s.keys.Some? && s.keys.value.sendSeq < TWO32
    requires OpenWire(s.keys.value, w).1 == Opened(Carried(w))
    ensures var sends := ServerReceive(cfg.server, s, w, d).sends;
            sends == [] || (|sends| == 1 && DownWeight(sends[0]) < UpWeight(w))
  {
    hide Offered, Carried, OpenWire, SealedWire;
    OpenStep(s.keys.value, w);
    var f, k := Carried(w), OpenWire(s.keys.value, w).0;
    assert k.sendSeq < TWO32;
    if f.typ == MSG_KEEPALIVE {
      OfferedBounded(k.RecvKey(), w);
      CarriesSealed(k, Message(d.nonce, s.tag, MSG_KEEPALIVE, f.payload, d.padding));
    } else if f.typ == MSG_REKEY1 {
      match cfg.server.noise.read1(f.payload)
      case None =>
      case Some((e, _)) =>
        var msg := cfg.server.noise.write2(e, d.ephemeral);
        assert |msg| <= 128;
        CarriesSealed(k, Message(d.nonce, s.tag, MSG_REKEY2, msg, d.padding));
    }
  }

  lemma ClientReplyLighter(cfg: Config, c: Client, w: Wire, d: Draw)
    requires Matched(cfg) && c.keys.Some? && c.keys.value.sendSeq < TWO32
    requires OpenWire(c.keys.value, w).1 == Opened(Carried(w))
    ensures var sends := ClientReceive(cfg.client, c, w, d).sends;
            sends == [] || (|sends| == 1 && UpWeight(sends[0]) < DownWeight(w))
  {
    hide Offered, Carried, OpenWire, SealedWire;
    OpenStep(c.keys.value, w);
    var f, k := Carried(w), OpenWire(c.keys.value, w).0;
    assert k.sendSeq < TWO32;
    if f.typ == MSG_REKEY2 && c.rekeyHs.Some? && c.rekeyHs.value.AwaitReply? {
      var e := c.rekeyHs.value.e;
      match cfg.client.noise.read2(e, f.payload)
      case None =>
      case Some(es) =>
        var msg := cfg.client.noise.write3(e, es, cfg.client.identity);
        assert |msg| <= 128;
        CarriesSealed(k, Message(d.nonce, c.tag, MSG_REKEY3, msg, d.padding));
    }
  }

  /** The step delivers a datagram to an end that is there. */
  predicate Delivers(cfg: Config, net: Net, step: Step) {
    && (if step.ToServer? then net.c2s != [] else step.ToClient? && net.s2c != [])
    && !Absent(net, step) && !Panics(cfg, net, step)
  }

  lemma DeliveryLighter(cfg: Config, net: Net, step: Step)
    requires Matched(cfg) && Inv(cfg, net) && Roomy(net) && Delivers(cfg, net, step)
    ensures Measure(Apply(cfg, net, step)) < Measure(net)
  {
    hide Matched, Inv, Carried, CarriedAll, OpenWire, UpWeight, DownWeight, ClientReceive, ServerReceive, Panics;
    InvHeadsOpen(cfg, net);
    match step
    case ToServer(d) =>
      var sends := ServerReceive(cfg.server, net.server, net.c2s[0], Sure(d)).sends;
      ServerReplyLighter(cfg, net.server, net.c2s[0], Sure(d));
      if sends == [] {
        assert net.s2c + sends == net.s2c;
      } else {
        assert sends == [sends[0]];
        SumAppend(net.s2c, sends[0], DownWeight);
      }
    case ToClient(d) =>
      var sends := ClientReceive(cfg.client, net.client, net.s2c[0], Sure(d)).sends;
      ClientReplyLighter(cfg, net.client, net.s2c[0], Sure(d));
      if sends == [] {
        assert net.c2s + sends == net.c2s;
      } else {
        assert sends == [sends[0]];
        SumAppend(net.c2s, sends[0], UpWeight);
      }
  }

  /** Every step of the run delivers a datagram. */
  predicate OnlyDeliveries(cfg: Config, net: Net, steps: seq<Step>) {
    forall i :: 0 <= i < |steps| ==> Delivers(cfg, Run(cfg, net, steps[..i]), steps[i])
  }

  lemma {:induction false} DeliveriesBounded(cfg: Config, net: Net, steps: seq<Step>)
    requires Matched(cfg) && Inv(cfg, net) && Conserved(net) && Piped(cfg, net)
    requires RoomyRun(cfg, net, steps) && OnlyDeliveries(cfg, net, steps)
    ensures |steps| + Measure(Run(cfg, net, steps)) <= Measure(net)
  {
    hide Inv, Conserved, Piped, Matched, Roomy, Apply, Delivers, Measure;
    if steps != [] {
      var k := |steps| - 1;
      var before := steps[..k];
      forall i | 0 <= i < |before|
        ensures Roomy(Run(cfg, net, before[..i])) && Delivers(cfg, Run(cfg, net, before[..i]), before[i])
      {
        assert before[..i] == steps[..i];
      }
      DeliveriesBounded(cfg, net, before);
      RunKeeps(cfg, net, before);
      DeliveryLighter(cfg, Run(cfg, net, before), steps[k]);
    }
  }

  /** Nothing is in flight, no rekey is under way, both ends agree on the key, and everything sent has come out. */
  predicate Settled(cfg: Config, net: Net) {
    && net.c2s == [] && net.s2c == []
    && net.client.connected && !net.client.rekeying && !net.server.rekeying
    && net.client.keys.Some? && net.server.keys.Some? && net.server.ip.Some?
    && net.client.keys.value.pair == net.server.keys.value.pair
    && net.client.address == ParseAssign(Told(cfg, net.server.ip.value))
    && net.up.got == net.up.sent && net.down.got == net.down.sent
    && net.up.tun == ServerPackets(cfg.server, net.server.ip.value, net.up.sent)
    && net.down.tun == ClientPackets(cfg.client, net.down.sent)
  }

  /**
   * With no new triggers, delivery from any reachable state stops after boundedly many steps;
   * and where nothing is left to deliver, both ends are settled on one epoch.
   */
  lemma DeliverySettles(cfg: Config, p: Pair, tag: Tag, ip: nat, d: Draw, steps: seq<Step>, deliveries: seq<Step>)
    requires Matched(cfg) && RoomyRun(cfg, Begin(cfg, p, tag, ip, d), steps)
    requires var net := Run(cfg, Begin(cfg, p, tag, ip, d), steps);
             RoomyRun(cfg, net, deliveries) && OnlyDeliveries(cfg, net, deliveries)
    ensures var net := Run(cfg, Begin(cfg, p, tag, ip, d), steps);
            var end := Run(cfg, net, deliveries);
            && |deliveries| <= Measure(net)
            && (Settled(cfg, end) || end.c2s != [] || end.s2c != [])
  {
    hide Inv, Matched, Begin, Run, RoomyRun, OnlyDeliveries, Conserved, Piped, Measure, Calm, Settled;
    var start := Begin(cfg, p, tag, ip, d);
    BeginInv(cfg, p, tag, ip, d);
    BeginPiped(cfg, p, tag, ip, d);
    CalmInv(cfg, start);
    RunKeeps(cfg, start, steps);
    var net := Run(cfg, start, steps);
    RunKeeps(cfg, net, deliveries);
    DeliveriesBounded(cfg, net, deliveries);
    var end := Run(cfg, net, deliveries);
    if end.c2s == [] && end.s2c == [] {
      QuietSettled(cfg, end);
    }
  }

  lemma QuietSettled(cfg: Config, net: Net)
    requires Inv(cfg, net) && Conserved(net) && Piped(cfg, net) && net.c2s == [] && net.s2c == []
    ensures Settled(cfg, net)
  {
    hide ServerPackets, ClientPackets, Carried, InOrder, Received;
    assert Calm(cfg, net);
    assert net.client.connected && !net.client.rekeying && !net.server.rekeying;
    assert net.client.keys.value.RecvKey() == net.server.keys.value.SendKey();
    assert CarriedAll(net.c2s) == [] && CarriedAll(net.s2c) == [];
    assert net.up.got + [] == net.up.got && net.down.got + [] == net.down.got;
  }

  // ---- Delivery need not stop ----

  lemma InBufferAppend(a: seq<Wire>, b: seq<Wire>)
    requires InBuffer(a) && InBuffer(b)
    ensures InBuffer(a + b)
  {
  }

  lemma InBufferPop(q: seq<Wire>)
    requires InBuffer(q) && q != []
    ensures InBuffer(q[1..])
  {
  }

  /** Everything on its way was sealed within the buffer. */
  predicate Buffered(net: Net) {
    InBuffer(net.c2s) && InBuffer(net.s2c)
  }

  lemma StepBuffered(cfg: Config, net: Net, step: Step)
    requires Buffered(net)
    ensures Buffered(Apply(cfg, net, step))
  {
    hide InBuffer, CarriedAll, OpenWire, ClientSend, ServerSend, StartRekey, ClientReceive, ServerReceive;
    hide ClientPacket, ServerPacket;
    if !Absent(net, step) && !Panics(cfg, net, step) {
      match step
      case ClientReads(packet, d) =>
        InBufferAppend(net.c2s, ClientPacket(cfg.client, net.client, packet, Sure(d)).sends);
      case ServerReads(packet, d) => InBufferAppend(net.s2c, ServerPacket(net.server, packet, Sure(d)).sends);
      case ClientSends(typ, payload, d) => InBufferAppend(net.c2s, ClientSend(net.client, typ, payload, Sure(d)).sends);
      case ClientRekeys(d) => InBufferAppend(net.c2s, StartRekey(cfg.client, net.client, Sure(d)).sends);
      case ServerSends(typ, payload, d) => InBufferAppend(net.s2c, ServerSend(net.server, typ, payload, Sure(d)).sends);
      case ClientCloses(polite, d) =>
        if polite {
          InBufferAppend(net.c2s, ClientSend(net.client, MSG_CLOSE, [], Sure(d)).sends);
        }
      case ServerCloses(polite, d) =>
        if polite {
          InBufferAppend(net.s2c, ServerSend(net.server, MSG_CLOSE, [], Sure(d)).sends);
        }
      case ToServer(d) =>
        if net.c2s != [] && net.server.keys.Some? {
          InBufferPop(net.c2s);
          InBufferAppend(net.s2c, ServerReceive(cfg.server, net.server, net.c2s[0], Sure(d)).sends);
        }
      case ToClient(d) =>
        if net.s2c != [] && net.client.keys.Some? {
          InBufferPop(net.s2c);
          InBufferAppend(net.c2s, ClientReceive(cfg.client, net.client, net.s2c[0], Sure(d)).sends);
        }
    }
  }

  lemma {:induction false} RunBuffered(cfg: Config, net: Net, steps: seq<Step>)
    requires Buffered(net)
    ensures Buffered(Run(cfg, net, steps))
  {
    hide Buffered, Apply;
    if steps != [] {
      RunBuffered(cfg, net, steps[..|steps| - 1]);
      StepBuffered(cfg, Run(cfg, net, steps[..|steps| - 1]), steps[|steps| - 1]);
    }
  }

  lemma BeginBuffered(cfg: Config, p: Pair, tag: Tag, ip: nat, d: Draw)
    requires Matched(cfg) && Fits(d, Told(cfg, ip))
    ensures Buffered(Begin(cfg, p, tag, ip, d))
  {
    hide SealedWire, InBuffer;
    NothingInBuffer();
    SealInBuffer(NewKeys(false, p), tag, MSG_ASSIGN, Told(cfg, ip), Sure(d));
    var w := SealedWire(NewKeys(false, p), Message(d.nonce, tag, MSG_ASSIGN, Told(cfg, ip), d.padding));
    assert [] + [w] == [w];
  }

  /**
   * An end that is there can always take the next datagram: whatever the run sealed within the buffer
   * is answered within it too, if nothing is padded.
   */
  lemma DeliveryGoesOn(cfg: Config, p: Pair, tag: Tag, ip: nat, d: Draw, steps: seq<Step>, later: Draw)
    requires Matched(cfg) && Fits(d, Told(cfg, ip)) && later.padding == []
    ensures var net := Run(cfg, Begin(cfg, p, tag, ip, d), steps);
            && (net.c2s != [] && !net.serverGone ==> Delivers(cfg, net, ToServer(later)))
            && (net.s2c != [] && !net.clientGone ==> Delivers(cfg, net, ToClient(later)))
  {
    hide Begin, Run, Overruns, ClientReceive, OpenWire, StartRekey;
    var net := Run(cfg, Begin(cfg, p, tag, ip, d), steps);
    BeginBuffered(cfg, p, tag, ip, d);
    RunBuffered(cfg, Begin(cfg, p, tag, ip, d), steps);
    if net.s2c != [] {
      RekeyInBuffer(cfg.client, net.client, net.s2c[0], later);
    }
    if net.c2s != [] && net.server.keys.Some? {
      if net.c2s[0].Box? {
        UnpaddedInBuffer(cfg.server, net.server, net.c2s[0], later);
      } else {
        RawInBuffer(cfg.server, net.server, net.c2s[0], later);
      }
    }
  }

  /** What is no frame is refused, so nothing is sealed in reply. */
  lemma RawInBuffer(cfg: ServerConfig, s: Server, w: Wire, d: Draw)
    requires s.keys.Some? && w.Raw?
    ensures !Overruns(cfg, s, w, d)
  {
    hide Overruns;
    OverrunsIff(cfg, s, w, d);
  }

  /**
   * A keepalive or decoy of a connected client that is not rekeying is sealed as it is, under the next
   * number, if it fits.
   */
  lemma AcceptedIsLogged(cfg: Config, net: Net, typ: Byte, payload: Bytes, d: Draw)
    requires net.client.connected && !net.client.rekeying && net.client.keys.Some? && Roomy(net)
    requires Local(typ, true) && |payload| < TWO16 && !net.clientGone
    ensures Panics(cfg, net, ClientSends(typ, payload, d)) <==> !Fits(d, payload)
    ensures Fits(d, payload) ==>
              Apply(cfg, net, ClientSends(typ, payload, d)).up.sent
              == net.up.sent + [Frame(net.client.tag, typ, net.client.keys.value.sendSeq, payload)]
  {
    hide Carried, SealedWire, InBuffer;
    CarriesSealed(net.client.keys.value, Message(d.nonce, net.client.tag, typ, payload, d.padding));
    SealInBuffer(net.client.keys.value, net.client.tag, typ, payload, Sure(d));
  }

  /** The same for a decoy of a server that is not rekeying. */
  lemma ServerSendLogged(cfg: Config, net: Net, typ: Byte, payload: Bytes, d: Draw)
    requires !net.server.rekeying && net.server.keys.Some? && Roomy(net)
    requires Local(typ, false) && |payload| < TWO16 && !net.serverGone
    ensures Panics(cfg, net, ServerSends(typ, payload, d)) <==> !Fits(d, payload)
    ensures Fits(d, payload) ==>
              Apply(cfg, net, ServerSends(typ, payload, d)).down.sent
              == net.down.sent + [Frame(net.server.tag, typ, net.server.keys.value.sendSeq, payload)]
  {
    hide Carried, SealedWire, InBuffer;
    CarriesSealed(net.server.keys.value, Message(d.nonce, net.server.tag, typ, payload, d.padding));
    SealInBuffer(net.server.keys.value, net.server.tag, typ, payload, Sure(d));
  }
}
