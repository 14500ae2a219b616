/** Packets end to end over the lossless carriers: what goes into one TUN and what comes out of the other. */
module Tunnel {
  import opened Bytes
  import opened IPv4
  import opened Framing
  import opened NoiseXK
  import opened SessionKeys
  import opened Endpoints
  import opened Fifo

  // ---- What a packet read from a TUN does ----

  /** The client takes packets of version 4 up to its MTU, except while it rekeys; all others leave no trace. */
  predicate Taken(cfg: ClientConfig, c: Client, packet: Bytes) {
    !c.rekeying && |packet| <= cfg.mtu && Version4(packet)
  }

  lemma ClientReadsExact(cfg: Config, net: Net, packet: Bytes, d: Draw)
    requires net.client.connected && net.client.keys.Some? && Roomy(net) && !net.clientGone
    ensures Panics(cfg, net, ClientReads(packet, d)) <==>
            Taken(cfg.client, net.client, packet) && |packet| + |d.padding| > 65468
    ensures var net' := Apply(cfg, net, ClientReads(packet, d));
            if Taken(cfg.client, net.client, packet) && |packet| + |d.padding| <= 65468 then
              && net'.c2s == net.c2s + [net'.c2s[|net.c2s|]]
              && Carried(net'.c2s[|net.c2s|]) == Frame(net.client.tag, 0x04, net.client.keys.value.sendSeq, packet)
              && net'.up.sent == net.up.sent + [Carried(net'.c2s[|net.c2s|])]
              && net'.up == net.up.(sent := net'.up.sent) && net'.down == net.down && net'.s2c == net.s2c
            else net' == net
  {
    hide Carried, SealedWire, InBuffer, IsIPv4, Version4;
    IsIPv4Exact(packet);
    NothingInBuffer();
    var k, m := net.client.keys.value, Message(d.nonce, net.client.tag, MSG_DATA, packet, d.padding);
    if |packet| < TWO16 {
      CarriesSealed(k, m);
    }
    SealInBuffer(k, net.client.tag, MSG_DATA, packet, Sure(d));
    assert CarriedAll([SealedWire(k, m)]) == [Carried(SealedWire(k, m))];
    ReadsAct(cfg, net, packet, Sure(d));
    assert net.c2s + [] == net.c2s && net.up.sent + CarriedAll([]) == net.up.sent && net.down.tun + [] == net.down.tun;
  }

  lemma ServerReadsExact(cfg: Config, net: Net, packet: Bytes, d: Draw)
    requires net.server.keys.Some? && net.server.ip.Some? && Roomy(net) && !net.serverGone
    ensures Panics(cfg, net, ServerReads(packet, d)) <==> !net.server.rekeying && |packet| + |d.padding| > 65468
    ensures var net' := Apply(cfg, net, ServerReads(packet, d));
            if !net.server.rekeying && |packet| + |d.padding| <= 65468 then
              && net'.s2c == net.s2c + [net'.s2c[|net.s2c|]]
              && Carried(net'.s2c[|net.s2c|]) == Frame(net.server.tag, 0x04, net.server.keys.value.sendSeq, packet)
              && net'.down.sent == net.down.sent + [Carried(net'.s2c[|net.s2c|])]
              && net'.down == net.down.(sent := net'.down.sent) && net'.up == net.up && net'.c2s == net.c2s
            else net' == net
  {
    hide Carried, SealedWire, InBuffer;
    NothingInBuffer();
    var k, m := net.server.keys.value, Message(d.nonce, net.server.tag, MSG_DATA, packet, d.padding);
    if |packet| < TWO16 {
      CarriesSealed(k, m);
    }
    SealInBuffer(k, net.server.tag, MSG_DATA, packet, Sure(d));
    assert CarriedAll([SealedWire(k, m)]) == [Carried(SealedWire(k, m))];
    assert net.s2c + [] == net.s2c && net.down.sent + CarriedAll([]) == net.down.sent && net.up.tun + [] == net.up.tun;
  }

  // ---- Logs only grow, and the server knows its client by one address ----

  lemma StepGrows(cfg: Config, net: Net, step: Step)
    ensures var net' := Apply(cfg, net, step);
            net.up.sent <= net'.up.sent && net.down.sent <= net'.down.sent
  {
    hide CarriedAll, Panics, Absent, OpenWire, SealedWire;
    hide ClientSend, ServerSend, ClientPacket, ServerPacket, StartRekey, ClientReceive, ServerReceive;
  }

  lemma {:induction false} RunGrows(cfg: Config, net: Net, steps: seq<Step>)
    ensures var end := Run(cfg, net, steps); net.up.sent <= end.up.sent && net.down.sent <= end.down.sent
  {
    hide Apply;
    if steps != [] {
      RunGrows(cfg, net, steps[..|steps| - 1]);
      StepGrows(cfg, Run(cfg, net, steps[..|steps| - 1]), steps[|steps| - 1]);
    }
  }

  lemma StepAddress(cfg: Config, net: Net, step: Step)
    ensures Apply(cfg, net, step).server.ip == net.server.ip
  {
    hide CarriedAll, Panics, Absent, OpenWire, SealedWire, Parse;
    hide ClientSend, ClientPacket, StartRekey, ClientReceive;
  }

  lemma {:induction false} RunAddress(cfg: Config, net: Net, steps: seq<Step>)
    ensures Run(cfg, net, steps).server.ip == net.server.ip
  {
    hide Apply;
    if steps != [] {
      RunAddress(cfg, net, steps[..|steps| - 1]);
      StepAddress(cfg, Run(cfg, net, steps[..|steps| - 1]), steps[|steps| - 1]);
    }
  }

  lemma BeginAddress(cfg: Config, p: Pair, tag: Tag, ip: nat, d: Draw)
    requires Matched(cfg)
    ensures Begin(cfg, p, tag, ip, d).server.ip == Some(ip)
  {
    hide Carried, SealedWire;
    assert cfg.server.noise.read3(p.client, p.server, cfg.client.noise.write3(p.client, p.server, cfg.client.identity))
        == Some(cfg.client.identity);
  }

  lemma {:induction false} PacketsGrow(cfg: Config, ip: nat, a: seq<Frame>, b: seq<Frame>)
    requires a <= b
    ensures ServerPackets(cfg.server, ip, a) <= ServerPackets(cfg.server, ip, b)
    ensures ClientPackets(cfg.client, a) <= ClientPackets(cfg.client, b)
  {
    hide ServerTakes, ClientTakes;
    if a != b {
      var n := |b| - 1;
      assert a <= b[..n];
      PacketsGrow(cfg, ip, a, b[..n]);
    }
  }

  lemma {:induction false} RunOn(cfg: Config, net: Net, a: seq<Step>, b: seq<Step>)
    ensures Run(cfg, net, a + b) == Run(cfg, Run(cfg, net, a), b)
  {
    hide Apply;
    if b == [] {
      assert a + b == a;
    } else {
      var n := |b| - 1;
      assert (a + b)[..|a + b| - 1] == a + b[..n];
      RunOn(cfg, net, a, b[..n]);
    }
  }

  lemma RunOneStep(cfg: Config, net: Net, step: Step)
    ensures Run(cfg, net, [step]) == Apply(cfg, net, step)
  {
    hide Apply;
    assert [step][..0] == [];
  }

  // ---- Packets arrive ----

  /** What every reachable net satisfies, with the address the session was given. */
  ghost predicate Sound(cfg: Config, net: Net, ip: nat) {
    Inv(cfg, net) && Conserved(net) && Piped(cfg, net) && net.server.ip == Some(ip)
  }

  lemma Reached(cfg: Config, p: Pair, tag: Tag, ip: nat, d: Draw, steps: seq<Step>)
    requires Matched(cfg) && RoomyRun(cfg, Begin(cfg, p, tag, ip, d), steps)
    ensures Sound(cfg, Run(cfg, Begin(cfg, p, tag, ip, d), steps), ip)
  {
    hide Inv, Matched, Begin, Run, RoomyRun, Conserved, Piped, Calm;
    var start := Begin(cfg, p, tag, ip, d);
    BeginInv(cfg, p, tag, ip, d);
    BeginPiped(cfg, p, tag, ip, d);
    BeginAddress(cfg, p, tag, ip, d);
    CalmInv(cfg, start);
    RunKeeps(cfg, start, steps);
    RunAddress(cfg, start, steps);
  }

  /** With the upward channel drained, the server's TUN has seen the acceptable packets of everything sealed. */
  lemma Drained(cfg: Config, net: Net, ip: nat)
    requires Sound(cfg, net, ip)
    ensures net.c2s == [] ==> net.up.tun == ServerPackets(cfg.server, ip, net.up.sent)
    ensures net.s2c == [] ==> net.down.tun == ClientPackets(cfg.client, net.down.sent)
  {
    hide Inv, ServerPackets, ClientPackets;
    if net.c2s == [] {
      assert CarriedAll(net.c2s) == [] && net.up.got + [] == net.up.got;
    }
    if net.s2c == [] {
      assert CarriedAll(net.s2c) == [] && net.down.got + [] == net.down.got;
    }
  }

  /** What the server lets out of a packet from its client, and the client of one from its server. */
  function Delivered(cfg: Config, ip: nat, packet: Bytes): seq<Bytes> {
    if WellFormed(packet) && Source(packet) == ip && |packet| <= cfg.server.mtu then [packet] else []
  }

  function Returned(cfg: Config, packet: Bytes): seq<Bytes> {
    if Version4(packet) && |packet| <= cfg.client.mtu then [packet] else []
  }

  /**
   * Whatever else happens before and after, rekeys and closes included: a packet that a connected
   * client takes while it is not rekeying comes out of the server's TUN, if it is well-formed, from the
   * client's address and within the server's MTU, in its place after all that was taken before, as soon
   * as everything sent has arrived. If it is not, it comes out nowhere.
   */
  lemma PacketArrives(cfg: Config, p: Pair, tag: Tag, ip: nat, d: Draw, steps: seq<Step>,
                      packet: Bytes, read: Draw, more: seq<Step>)
    requires Matched(cfg) && RoomyRun(cfg, Begin(cfg, p, tag, ip, d), steps + [ClientReads(packet, read)] + more)
    requires var net := Run(cfg, Begin(cfg, p, tag, ip, d), steps);
             net.client.connected && !net.client.rekeying && !net.clientGone
    requires Version4(packet) && |packet| <= cfg.client.mtu && |packet| + |read.padding| <= 65468
    requires Run(cfg, Begin(cfg, p, tag, ip, d), steps + [ClientReads(packet, read)] + more).c2s == []
    ensures var net := Run(cfg, Begin(cfg, p, tag, ip, d), steps);
            var end := Run(cfg, Begin(cfg, p, tag, ip, d), steps + [ClientReads(packet, read)] + more);
            var before := ServerPackets(cfg.server, ip, net.up.sent);
            net.up.tun <= before && before + Delivered(cfg, ip, packet) <= end.up.tun
  {
    hide Begin, Run, RoomyRun, Matched, Apply, ServerPackets, Carried, Version4, WellFormed, Sound;
    var start, step := Begin(cfg, p, tag, ip, d), ClientReads(packet, read);
    var all := steps + [step] + more;
    assert all[..|steps|] == steps && all[..|steps| + 1] == steps + [step];
    RoomyBefore(cfg, start, all, |steps|);
    RoomyAt(cfg, start, all, |steps|);
    Reached(cfg, p, tag, ip, d, steps);
    Reached(cfg, p, tag, ip, d, all);
    var net := Run(cfg, start, steps);
    RunOn(cfg, start, steps, [step]);
    RunOneStep(cfg, net, step);
    RunOn(cfg, start, steps + [step], more);
    SoundGot(cfg, net, ip);
    ClientReadsExact(cfg, net, packet, read);
    var mid := Apply(cfg, net, step);
    var end := Run(cfg, mid, more);
    RunGrows(cfg, mid, more);
    Drained(cfg, end, ip);
    PacketsGrow(cfg, ip, mid.up.sent, end.up.sent);
    var f := mid.up.sent[|net.up.sent|];
    PacketsPush(cfg, ip, net.up.sent, f);
  }

  /** The same on the way back. */
  lemma ReplyArrives(cfg: Config, p: Pair, tag: Tag, ip: nat, d: Draw, steps: seq<Step>,
                     packet: Bytes, read: Draw, more: seq<Step>)
    requires Matched(cfg) && RoomyRun(cfg, Begin(cfg, p, tag, ip, d), steps + [ServerReads(packet, read)] + more)
    requires var net := Run(cfg, Begin(cfg, p, tag, ip, d), steps); !net.server.rekeying && !net.serverGone
    requires |packet| + |read.padding| <= 65468
    requires Run(cfg, Begin(cfg, p, tag, ip, d), steps + [ServerReads(packet, read)] + more).s2c == []
    ensures var net := Run(cfg, Begin(cfg, p, tag, ip, d), steps);
            var end := Run(cfg, Begin(cfg, p, tag, ip, d), steps + [ServerReads(packet, read)] + more);
            var before := ClientPackets(cfg.client, net.down.sent);
            net.down.tun <= before && before + Returned(cfg, packet) <= end.down.tun
  {
    hide Begin, Run, RoomyRun, Matched, Apply, ClientPackets, Carried, Version4, Sound;
    var start, step := Begin(cfg, p, tag, ip, d), ServerReads(packet, read);
    var all := steps + [step] + more;
    assert all[..|steps|] == steps && all[..|steps| + 1] == steps + [step];
    RoomyBefore(cfg, start, all, |steps|);
    RoomyAt(cfg, start, all, |steps|);
    Reached(cfg, p, tag, ip, d, steps);
    Reached(cfg, p, tag, ip, d, all);
    var net := Run(cfg, start, steps);
    RunOn(cfg, start, steps, [step]);
    RunOneStep(cfg, net, step);
    RunOn(cfg, start, steps + [step], more);
    SoundGot(cfg, net, ip);
    ServerReadsExact(cfg, net, packet, read);
    var mid := Apply(cfg, net, step);
    var end := Run(cfg, mid, more);
    RunGrows(cfg, mid, more);
    Drained(cfg, end, ip);
    PacketsGrow(cfg, ip, mid.down.sent, end.down.sent);
    var f := mid.down.sent[|net.down.sent|];
    PacketsPush(cfg, ip, net.down.sent, f);
  }

  lemma RoomyAt(cfg: Config, net: Net, steps: seq<Step>, k: nat)
    requires RoomyRun(cfg, net, steps) && k < |steps|
    ensures Roomy(Run(cfg, net, steps[..k]))
  {
    hide Roomy, Run;
  }

  lemma SoundGot(cfg: Config, net: Net, ip: nat)
    requires Sound(cfg, net, ip)
    ensures net.client.keys.Some? && net.server.keys.Some? && net.server.ip == Some(ip)
    ensures net.up.tun <= ServerPackets(cfg.server, ip, net.up.sent)
    ensures net.down.tun <= ClientPackets(cfg.client, net.down.sent)
  {
    hide Inv, ServerPackets, ClientPackets, CarriedAll, HeadsOpen;
    InvHeadsOpen(cfg, net);
    PacketsGrow(cfg, ip, net.up.got, net.up.sent);
    PacketsGrow(cfg, ip, net.down.got, net.down.sent);
  }

  // ---- From a settled net ----

  /** Delivering a frame that asks for no reply takes it off its channel and sends nothing. */
  lemma DataDelivered(cfg: Config, net: Net, d: Draw)
    requires Inv(cfg, net)
    ensures net.c2s != [] && Carried(net.c2s[0]).typ == MSG_DATA && !net.serverGone ==>
              var net' := Apply(cfg, net, ToServer(d));
              && net'.c2s == net.c2s[1..] && net'.s2c == net.s2c && net'.up.sent == net.up.sent
              && net'.down == net.down && net'.clientGone == net.clientGone && !net'.serverGone
    ensures net.s2c != [] && Carried(net.s2c[0]).typ == MSG_DATA && !net.clientGone && net.client.connected ==>
              var net' := Apply(cfg, net, ToClient(d));
              && net'.s2c == net.s2c[1..] && net'.c2s == net.c2s && net'.down.sent == net.down.sent
              && net'.up == net.up && net'.serverGone == net.serverGone && !net'.clientGone
  {
    hide Carried, OpenWire, SealedWire, Parse, IsIPv4, Inv, InBuffer;
    NothingInBuffer();
    InvHeadsOpen(cfg, net);
    assert net.s2c + [] == net.s2c && net.down.sent + CarriedAll([]) == net.down.sent;
    assert net.c2s + [] == net.c2s && net.up.sent + CarriedAll([]) == net.up.sent;
    assert net.down.tun + [] == net.down.tun && net.up.tun + [] == net.up.tun;
  }

  /** Two steps from a reachable net. */
  lemma TwoSteps(cfg: Config, net: Net, ip: nat, a: Step, b: Step)
    requires Matched(cfg) && Sound(cfg, net, ip) && Roomy(net) && Roomy(Apply(cfg, net, a))
    ensures Run(cfg, net, [a, b]) == Apply(cfg, Apply(cfg, net, a), b)
    ensures Sound(cfg, Apply(cfg, net, a), ip) && Sound(cfg, Apply(cfg, Apply(cfg, net, a), b), ip)
  {
    hide Inv, Conserved, Piped, Matched, Roomy, Apply;
    assert [a, b][..1] == [a] && [a][..0] == [];
    assert Run(cfg, net, [a]) == Apply(cfg, net, a);
    StepSound(cfg, net, ip, a);
    StepSound(cfg, Apply(cfg, net, a), ip, b);
  }

  lemma StepSound(cfg: Config, net: Net, ip: nat, step: Step)
    requires Matched(cfg) && Sound(cfg, net, ip) && Roomy(net)
    ensures Sound(cfg, Apply(cfg, net, step), ip)
  {
    hide Inv, Conserved, Piped, Matched, Roomy, Apply;
    StepKeeps(cfg, net, step);
    StepConserves(cfg, net, step);
    StepPipes(cfg, net, step);
    StepAddress(cfg, net, step);
  }

  /**
   * With nothing in flight, a packet goes through in two steps: it is read at one end and delivered at
   * the other, and comes out there unless one of the ends drops it. Both ends are settled again.
   */
  lemma PacketCrosses(cfg: Config, net: Net, ip: nat, packet: Bytes, read: Draw, arrive: Draw)
    requires Matched(cfg) && Sound(cfg, net, ip) && Settled(cfg, net) && !net.clientGone && !net.serverGone
    requires Roomy(net) && Roomy(Apply(cfg, net, ClientReads(packet, read)))
    ensures var end := Run(cfg, net, [ClientReads(packet, read), ToServer(arrive)]);
            && Settled(cfg, end) && end.down.tun == net.down.tun
            && end.up.tun == net.up.tun
               + if Version4(packet) && |packet| <= cfg.client.mtu && |packet| + |read.padding| <= 65468
                 then Delivered(cfg, ip, packet) else []
  {
    hide Matched, Apply, Carried, Version4, WellFormed, ServerPackets, ClientPackets, Inv, Conserved, Piped, Roomy;
    var mid := Apply(cfg, net, ClientReads(packet, read));
    TwoSteps(cfg, net, ip, ClientReads(packet, read), ToServer(arrive));
    ClientReadsExact(cfg, net, packet, read);
    ReadsPresent(cfg, net, ClientReads(packet, read));
    var end := Apply(cfg, mid, ToServer(arrive));
    if mid.c2s == [] {
      NothingToServer(cfg, mid, arrive);
    } else {
      DataDelivered(cfg, mid, arrive);
      PacketsPush(cfg, ip, net.up.sent, mid.up.sent[|net.up.sent|]);
    }
    Drained(cfg, end, ip);
    QuietSettled(cfg, end);
  }

  lemma ReplyCrosses(cfg: Config, net: Net, ip: nat, packet: Bytes, read: Draw, arrive: Draw)
    requires Matched(cfg) && Sound(cfg, net, ip) && Settled(cfg, net) && !net.clientGone && !net.serverGone
    requires Roomy(net) && Roomy(Apply(cfg, net, ServerReads(packet, read)))
    ensures var end := Run(cfg, net, [ServerReads(packet, read), ToClient(arrive)]);
            && Settled(cfg, end) && end.up.tun == net.up.tun
            && end.down.tun == net.down.tun + if |packet| + |read.padding| <= 65468 then Returned(cfg, packet) else []
  {
    hide Matched, Apply, Carried, Version4, WellFormed, ServerPackets, ClientPackets, Inv, Conserved, Piped, Roomy;
    var mid := Apply(cfg, net, ServerReads(packet, read));
    TwoSteps(cfg, net, ip, ServerReads(packet, read), ToClient(arrive));
    ServerReadsExact(cfg, net, packet, read);
    ReadsPresent(cfg, net, ServerReads(packet, read));
    var end := Apply(cfg, mid, ToClient(arrive));
    if mid.s2c == [] {
      NothingToClient(cfg, mid, arrive);
    } else {
      DataDelivered(cfg, mid, arrive);
      PacketsPush(cfg, ip, net.down.sent, mid.down.sent[|net.down.sent|]);
    }
    Drained(cfg, end, ip);
    QuietSettled(cfg, end);
  }

  /** Reading a packet ends no connection. */
  lemma ReadsPresent(cfg: Config, net: Net, step: Step)
    requires step.ClientReads? || step.ServerReads?
    ensures var net' := Apply(cfg, net, step);
            && net'.clientGone == net.clientGone && net'.serverGone == net.serverGone
            && net'.client.connected == net.client.connected
  {
    hide Panics, SealedWire, IsIPv4;
  }

  lemma NothingToServer(cfg: Config, net: Net, d: Draw)
    requires net.c2s == []
    ensures Apply(cfg, net, ToServer(d)) == net
  {
  }

  lemma NothingToClient(cfg: Config, net: Net, d: Draw)
    requires net.s2c == []
    ensures Apply(cfg, net, ToClient(d)) == net
  {
  }

  // ---- Keepalives and rekeys complete ----

  lemma PingSent(cfg: Config, net: Net, cookie: Bytes, d: Draw)
    requires Inv(cfg, net) && Settled(cfg, net) && Roomy(net) && !net.clientGone && |cookie| + |d.padding| <= 65468
    ensures var net' := Apply(cfg, net, ClientSends(MSG_KEEPALIVE, cookie, d));
            && |net'.c2s| == 1 && Carried(net'.c2s[0]).typ == MSG_KEEPALIVE && Carried(net'.c2s[0]).payload == cookie
            && net'.s2c == [] && net'.server == net.server && net'.down == net.down && net'.client.connected
            && net'.clientGone == net.clientGone && net'.serverGone == net.serverGone && !net'.client.rekeying
  {
    hide Carried, SealedWire, InBuffer, Inv;
    var k := net.client.keys.value;
    CarriesSealed(k, Message(d.nonce, net.client.tag, MSG_KEEPALIVE, cookie, d.padding));
    SealInBuffer(k, net.client.tag, MSG_KEEPALIVE, cookie, Sure(d));
  }

  lemma PingEchoed(cfg: Config, net: Net, d: Draw)
    requires Inv(cfg, net) && Roomy(net) && |net.c2s| == 1 && net.s2c == [] && !net.server.rekeying && !net.serverGone
    requires Carried(net.c2s[0]).typ == MSG_KEEPALIVE && |Carried(net.c2s[0]).payload| + |d.padding| <= 65468
    ensures var net' := Apply(cfg, net, ToServer(d));
            && net.server.keys.Some? && net'.c2s == [] && |net'.s2c| == 1 && net'.client == net.client
            && Carried(net'.s2c[0]) == Frame(net.server.tag, MSG_KEEPALIVE, net.server.keys.value.sendSeq,
                                             Carried(net.c2s[0]).payload)
            && net'.down.got == net.down.got && net'.clientGone == net.clientGone
  {
    hide Carried, SealedWire, OpenWire, InBuffer, Inv, Parse;
    InvHeadsOpen(cfg, net);
    var w, s := net.c2s[0], net.server;
    var k := OpenWire(s.keys.value, w).0;
    OpenKeeps(s.keys.value, w);
    CarriesSealed(k, Message(d.nonce, s.tag, MSG_KEEPALIVE, Carried(w).payload, d.padding));
    SealInBuffer(k, s.tag, MSG_KEEPALIVE, Carried(w).payload, Sure(d));
  }

  lemma OpenKeeps(k: KeyState, w: Wire)
    ensures OpenWire(k, w).0 == k.(replay := OpenWire(k, w).0.replay)
  {
  }

  lemma PingHeard(cfg: Config, net: Net, d: Draw)
    requires Inv(cfg, net) && |net.s2c| == 1 && net.c2s == [] && net.client.connected && !net.clientGone
    requires Carried(net.s2c[0]).typ == MSG_KEEPALIVE
    ensures var net' := Apply(cfg, net, ToClient(d));
            net'.s2c == [] && net'.c2s == [] && net'.down.got == net.down.got + [Carried(net.s2c[0])]
  {
    hide Carried, SealedWire, OpenWire, InBuffer, Inv;
    NothingInBuffer();
    InvHeadsOpen(cfg, net);
  }

  /** A keepalive comes back to the client as it was sent. */
  lemma PingReturns(cfg: Config, net: Net, ip: nat, cookie: Bytes, send: Draw, echo: Draw, hear: Draw)
    requires Matched(cfg) && Sound(cfg, net, ip) && Settled(cfg, net) && !net.clientGone && !net.serverGone
    requires |cookie| + |send.padding| <= 65468 && |cookie| + |echo.padding| <= 65468
    requires RoomyRun(cfg, net, [ClientSends(MSG_KEEPALIVE, cookie, send), ToServer(echo), ToClient(hear)])
    ensures var end := Run(cfg, net, [ClientSends(MSG_KEEPALIVE, cookie, send), ToServer(echo), ToClient(hear)]);
            && Settled(cfg, end)
            && end.down.got == net.down.got
                               + [Frame(net.server.tag, 0x05, net.server.keys.value.sendSeq, cookie)]
  {
    hide Matched, Apply, Carried, Inv, Conserved, Piped, Roomy, RoomyRun, Run;
    var a, b, c := ClientSends(MSG_KEEPALIVE, cookie, send), ToServer(echo), ToClient(hear);
    var n1 := Apply(cfg, net, a);
    var n2 := Apply(cfg, n1, b);
    ThreeSteps(cfg, net, a, b, c);
    StepSound(cfg, net, ip, a);
    StepSound(cfg, n1, ip, b);
    StepSound(cfg, n2, ip, c);
    PingSent(cfg, net, cookie, send);
    PingEchoed(cfg, n1, echo);
    PingHeard(cfg, n2, hear);
    QuietSettled(cfg, Apply(cfg, n2, c));
  }

  lemma ThreeSteps(cfg: Config, net: Net, a: Step, b: Step, c: Step)
    requires RoomyRun(cfg, net, [a, b, c])
    ensures Run(cfg, net, [a, b, c]) == Apply(cfg, Apply(cfg, Apply(cfg, net, a), b), c)
    ensures Roomy(net) && Roomy(Apply(cfg, net, a)) && Roomy(Apply(cfg, Apply(cfg, net, a), b))
  {
    hide Apply, Roomy, Run;
    var steps := [a, b, c];
    RunOneStep(cfg, net, a);
    RunOn(cfg, net, [a], [b]);
    RunOneStep(cfg, Apply(cfg, net, a), b);
    RunOn(cfg, net, [a, b], [c]);
    RunOneStep(cfg, Apply(cfg, Apply(cfg, net, a), b), c);
    assert [a] + [b] == [a, b] && [a, b] + [c] == steps;
    assert steps[..0] == [] && steps[..1] == [a] && steps[..2] == [a, b];
    RunNone(cfg, net);
  }

  lemma RunNone(cfg: Config, net: Net)
    ensures Run(cfg, net, []) == net
  {
  }

  lemma RekeyAsked(cfg: Config, net: Net, d: Draw)
    requires Matched(cfg) && Inv(cfg, net) && Settled(cfg, net) && !net.clientGone && |d.padding| <= 65340
    ensures var net' := Apply(cfg, net, ClientRekeys(d));
            && |net'.c2s| == 1 && net'.s2c == [] && net'.server == net.server
            && net'.client.rekeying && net'.client.rekeyHs == Some(AwaitReply(d.ephemeral))
            && net'.clientGone == net.clientGone && net'.serverGone == net.serverGone
  {
    hide Carried, SealedWire, InBuffer, Inv, ClientReceive;
    RekeyInBuffer(cfg.client, net.client, Raw([]), d);
  }

  lemma RekeyFits(cfg: Config, net: Net, step: Step)
    requires Matched(cfg) && Inv(cfg, net) && (step.ToServer? || step.ToClient?) && |step.d.padding| <= 65340
    requires step.ToServer? && net.c2s != [] ==> Carried(net.c2s[0]).typ != MSG_KEEPALIVE
    ensures !Panics(cfg, net, step)
  {
    hide Carried, OpenWire, InBuffer, Inv, ClientReceive, StartRekey, Overruns;
    InvHeadsOpen(cfg, net);
    if step.ToServer? && net.c2s != [] {
      RepliesInBuffer(cfg.server, net.server, net.c2s[0], step.d);
    } else if step.ToClient? && net.s2c != [] {
      RekeyInBuffer(cfg.client, net.client, net.s2c[0], step.d);
    }
  }

  /** With nothing else in flight, three deliveries complete a rekey: both ends are on the pair just drawn. */
  lemma RekeyCompletes(cfg: Config, net: Net, ip: nat, ask: Draw, answer: Draw, switch: Draw, follow: Draw)
    requires Matched(cfg) && Sound(cfg, net, ip) && Settled(cfg, net) && !net.clientGone && !net.serverGone
    requires |ask.padding| <= 65340 && |answer.padding| <= 65340 && |switch.padding| <= 65340
    requires |follow.padding| <= 65340
    requires RoomyRun(cfg, net, [ClientRekeys(ask), ToServer(answer), ToClient(switch)])
    requires Roomy(Run(cfg, net, [ClientRekeys(ask), ToServer(answer), ToClient(switch)]))
    ensures var end := Run(cfg, net, [ClientRekeys(ask), ToServer(answer), ToClient(switch)] + [ToServer(follow)]);
            && Settled(cfg, end)
            && end.client.keys.value.pair == end.server.keys.value.pair == Pair(ask.ephemeral, answer.ephemeral)
  {
    hide Matched, Carried, Inv, Conserved, Piped, Roomy, RoomyRun, Run, Act, Panics, Settled, Calm, Answered, Switched;
    var a, b, c, e := ClientRekeys(ask), ToServer(answer), ToClient(switch), ToServer(follow);
    var n1 := Apply(cfg, net, a);
    var n2 := Apply(cfg, n1, b);
    var n3 := Apply(cfg, n2, c);
    ThreeSteps(cfg, net, a, b, c);
    RunOn(cfg, net, [a, b, c], [e]);
    RunOneStep(cfg, n3, e);
    StepSound(cfg, net, ip, a);
    StepSound(cfg, n1, ip, b);
    StepSound(cfg, n2, ip, c);
    StepSound(cfg, n3, ip, e);
    RekeyAsked(cfg, net, ask);
    SettledEnds(cfg, net);
    RekeyingServer(cfg, n1);
    AskingFirst(cfg, n1);
    RekeyFits(cfg, n1, b);
    CalmRekeyToServer(cfg, n1, answer);
    RekeyFits(cfg, n2, c);
    RekeyToClient(cfg, n2, switch);
    SwitchedFirst(cfg, n3);
    RekeyFits(cfg, n3, e);
    SwitchedToServer(cfg, n3, follow);
    QuietSettled(cfg, Apply(cfg, n3, e));
    SettledEnds(cfg, Apply(cfg, n3, e));
  }

  lemma SettledEnds(cfg: Config, net: Net)
    requires Settled(cfg, net)
    ensures !net.server.rekeying && net.client.keys.Some? && net.server.keys.Some?
  {
  }

  lemma AskingFirst(cfg: Config, net: Net)
    requires Calm(cfg, net) && net.client.rekeying && |net.c2s| == 1
    ensures Carried(net.c2s[0]).typ == MSG_REKEY1
  {
    hide Carried, Linked;
  }

  lemma SwitchedFirst(cfg: Config, net: Net)
    requires Switched(cfg, net)
    ensures Carried(net.c2s[0]).typ == MSG_REKEY3 && net.server.rekeyHs == Some(net.client.keys.value.pair)
  {
    hide Carried, Linked;
  }

  // ---- A polite close arrives ----

  lemma ByeSent(cfg: Config, net: Net, step: Step)
    requires Inv(cfg, net) && Settled(cfg, net) && Roomy(net) && !net.clientGone && !net.serverGone
    requires (step.ClientCloses? || step.ServerCloses?) && step.polite && |step.d.padding| <= 65468
    ensures var net' := Apply(cfg, net, step);
            var q := if step.ClientCloses? then net'.c2s else net'.s2c;
            && |q| == 1 && Carried(q[0]).typ == 0x06 && net'.client.connected
            && (if step.ClientCloses? then net'.s2c else net'.c2s) == []
            && net'.clientGone == step.ClientCloses? && net'.serverGone == step.ServerCloses?
  {
    hide Carried, SealedWire, InBuffer, Inv;
    var c, s := net.client, net.server;
    CarriesSealed(c.keys.value, Message(step.d.nonce, c.tag, MSG_CLOSE, [], step.d.padding));
    CarriesSealed(s.keys.value, Message(step.d.nonce, s.tag, MSG_CLOSE, [], step.d.padding));
    SealInBuffer(c.keys.value, c.tag, MSG_CLOSE, [], Sure(step.d));
    SealInBuffer(s.keys.value, s.tag, MSG_CLOSE, [], Sure(step.d));
  }

  /** With nothing in flight, a polite close at one end and one delivery end the connection at both. */
  lemma CloseCrosses(cfg: Config, net: Net, ip: nat, close: Step, arrive: Draw)
    requires Matched(cfg) && Sound(cfg, net, ip) && Settled(cfg, net) && !net.clientGone && !net.serverGone
    requires (close.ClientCloses? || close.ServerCloses?) && close.polite
    requires |close.d.padding| <= 65468 && |arrive.padding| <= 65340
    requires Roomy(net) && Roomy(Apply(cfg, net, close))
    ensures var arrives := if close.ClientCloses? then ToServer(arrive) else ToClient(arrive);
            var end := Run(cfg, net, [close, arrives]);
            end.clientGone && end.serverGone
  {
    hide Matched, Carried, Inv, Conserved, Piped, Roomy, Panics, Act;
    var arrives := if close.ClientCloses? then ToServer(arrive) else ToClient(arrive);
    var mid := Apply(cfg, net, close);
    TwoSteps(cfg, net, ip, close, arrives);
    ByeSent(cfg, net, close);
    RekeyFits(cfg, mid, arrives);
    ByeHeard(cfg, mid, arrives);
  }

  lemma ByeHeard(cfg: Config, net: Net, step: Step)
    requires Inv(cfg, net) && (step.ToServer? || step.ToClient?)
    requires var q := if step.ToServer? then net.c2s else net.s2c; q != [] && Carried(q[0]).typ == 0x06
    ensures var net' := Act(cfg, net, step);
            if step.ToServer? then net'.serverGone && net'.clientGone == net.clientGone
            else net'.clientGone && net'.serverGone == net.serverGone
  {
    hide Carried, OpenWire, Inv, ServerReceive, ClientReceive;
    InvHeadsOpen(cfg, net);
    if step.ToServer? {
      ServerStops(cfg.server, net.server, net.c2s[0], Sure(step.d));
    } else {
      ClientStops(cfg, net, step.d);
    }
  }
}
