/** When a client that runs ahead over a lossy network can be caught up with, and when it is cut off for good. */
module Recovery {
  import opened Bytes
  import opened Framing
  import opened NoiseXK
  import opened SessionKeys
  import opened Endpoints
  import opened Lossy
  import RS = ReplaySpec

  /** The client has installed a pair that the server has not. */
  predicate Ahead(net: Net) {
    |net.clientPairs| == |net.serverPairs| + 1
  }

  /** The server still holds the handshake that the client completed. */
  predicate Expecting(net: Net)
    requires net.clientPairs != []
  {
    net.server.rekeying && net.server.rekeyHs == Some(Last(net.clientPairs))
  }

  /** While the client is ahead, nothing that was ever sent opens at the client. */
  lemma AheadHearsNothing(cfg: Config, net: Net, w: Wire, d: Draw)
    requires Inv(cfg, net) && Ahead(net)
    ensures Act(cfg, net, ToClient(w, d)) == net
  {
    hide OpenWire, Traffic, Drawn, Carried, ClientActs, ClientReceive;
    if Deliverable(net, w) {
      if OpenWire(net.client.keys.value, w).1.Opened? {
        OpenedAtClient(cfg, net, w);
        HeardMeansLevel(cfg, net, w);
      } else {
        RefusedAtClient(cfg, net, w, d);
      }
    }
  }

  /** The client runs ahead of a server that has dropped the handshake, or is gone. */
  predicate CutOff(net: Net) {
    Ahead(net) && net.clientPairs != [] && (!Expecting(net) || net.serverGone)
  }

  /** A server that has dropped the handshake never takes it up again: it would have to draw the same ephemeral key. */
  lemma StuckStep(cfg: Config, net: Net, step: Step)
    requires Matched(cfg) && Inv(cfg, net) && CutOff(net)
    ensures var net' := Apply(cfg, net, step);
            net'.clientPairs == net.clientPairs && net'.serverPairs == net.serverPairs && CutOff(net')
  {
    hide Inv, Matched, Act, Expecting, Panics;
    if !Absent(net, step) {
      match step
      case ToClient(w, d) => AheadHearsNothing(cfg, net, w, d);
      case ToServer(w, d) => StuckToServer(cfg, net, w, d);
      case _ => StuckLocal(cfg, net, step);
    }
  }

  lemma StuckLocal(cfg: Config, net: Net, step: Step)
    requires Inv(cfg, net) && CutOff(net) && !step.ToClient? && !step.ToServer?
    ensures var net' := Act(cfg, net, step);
            net'.clientPairs == net.clientPairs && net'.serverPairs == net.serverPairs && CutOff(net')
  {
    hide SealedWire, Traffic, Drawn;
  }

  lemma StuckToServer(cfg: Config, net: Net, w: Wire, d: Draw)
    requires Matched(cfg) && Inv(cfg, net) && Ahead(net) && !Expecting(net)
    ensures var net' := Act(cfg, net, ToServer(w, d));
            && net'.clientPairs == net.clientPairs && net'.serverPairs == net.serverPairs
            && !Expecting(net')
  {
    hide OpenWire, Carried, SealedWire, Traffic;
    if Deliverable(net, w) {
      if OpenWire(net.server.keys.value, w).1.Refused? {
        RefusedAtServer(cfg, net, w, d);
      } else {
        OpenedAtServer(cfg, net, w);
        if Carried(w).typ == MSG_REKEY3 {
          ToServerRekey3(cfg, net, w, d);
        } else if Carried(w).typ == MSG_REKEY1 {
          ToServerRekey1(cfg, net, w, d);
        } else {
          ToServerOther(cfg, net, w, d);
        }
      }
    }
  }

  lemma {:induction false} StuckRun(cfg: Config, net: Net, steps: seq<Step>)
    requires Matched(cfg) && Inv(cfg, net) && CutOff(net)
    ensures var end := Run(cfg, net, steps);
            end.clientPairs == net.clientPairs && end.serverPairs == net.serverPairs && CutOff(end)
  {
    hide Inv, Matched, Apply, CutOff;
    if steps != [] {
      var k := |steps| - 1;
      StuckRun(cfg, net, steps[..k]);
      RunKeeps(cfg, net, steps[..k]);
      StuckStep(cfg, Run(cfg, net, steps[..k]), steps[k]);
    }
  }

  // ---- Sequence numbers: message 3 is the last and highest of its key ----

  predicate HighBelow(w: RS.Window, bound: nat) {
    w.high == RS.EMPTY || w.high < bound
  }

  ghost predicate Below(sent: set<Wire>, key: Key, bound: nat) {
    forall w :: w in sent && w.Box? && w.key == key ==> Carried(w).num < bound
  }

  /** The client's message 3, the last frame it sealed under the server's current pair. */
  ghost predicate Third(net: Net, w: Wire)
    requires net.serverPairs != [] && net.server.keys.Some?
  {
    && w in net.sent && w.Box? && w.key == Key(Last(net.serverPairs), true) && Carried(w).typ == MSG_REKEY3
    && HighBelow(net.server.keys.value.replay, Carried(w).num)
    && Below(net.sent - {w}, w.key, Carried(w).num)
  }

  ghost predicate Numbers(net: Net)
    requires Epochs(net) && net.client.keys.Some? && net.server.keys.Some?
  {
    && net.client.keys.value.sendSeq <= TWO32
    && Below(net.sent, Key(Last(net.clientPairs), true), net.client.keys.value.sendSeq)
    && (!Ahead(net) ==> HighBelow(net.server.keys.value.replay, net.client.keys.value.sendSeq))
    && (Ahead(net) && Expecting(net) ==> exists w :: Third(net, w))
  }

  predicate Roomy(net: Net) {
    net.client.keys.Some? ==> net.client.keys.value.sendSeq < TWO32
  }

  predicate RoomyRun(cfg: Config, net: Net, steps: seq<Step>) {
    forall i :: 0 <= i < |steps| ==> Roomy(Run(cfg, net, steps[..i]))
  }

  lemma AddBelow(w: RS.Window, n: nat, bound: nat)
    requires HighBelow(w, bound) && n < bound
    ensures HighBelow(RS.Add(w, n), bound)
  {
  }

  lemma OpenBelow(k: KeyState, w: Wire, bound: nat)
    requires HighBelow(k.replay, bound) && w.Box? && w.key == k.RecvKey() && Carried(w).num < bound
    ensures HighBelow(OpenWire(k, w).0.replay, bound)
  {
    hide ParseInner, OpenWire;
    OpenStep(k, w);
    match Offered(k.RecvKey(), w)
    case None =>
    case Some(f) => AddBelow(k.replay, f.num, bound);
  }

  /** The two ends keep their pairs, and the client sealed at most one more frame, with the next number. */
  lemma NumbersKept(cfg: Config, net: Net, net': Net)
    requires Inv(cfg, net) && Numbers(net) && Epochs(net') && Ends(cfg, net')
    requires net'.clientPairs == net.clientPairs && net'.serverPairs == net.serverPairs
    requires net.client.keys.value.sendSeq <= net'.client.keys.value.sendSeq <= TWO32
    requires net'.server.keys.value.replay == net.server.keys.value.replay
    requires Expecting(net') ==> Expecting(net)
    requires net.sent <= net'.sent
    requires forall w :: w in net'.sent && w !in net.sent && w.Box? && w.key.toServer ==>
               w.key.pair == Last(net.clientPairs) && Carried(w).num < net'.client.keys.value.sendSeq
    ensures Numbers(net')
  {
    hide Carried, Traffic, Drawn;
    if Ahead(net) && Expecting(net') {
      var w :| Third(net, w);
      assert Last(net.clientPairs) != Last(net.serverPairs) by {
        assert net.clientPairs[|net.serverPairs| - 1] == Last(net.serverPairs);
      }
      assert Third(net', w);
    }
  }

  /** What the client seals under its current pair is numbered next. */
  lemma ClientLocalNumbers(cfg: Config, net: Net, step: Step)
    requires Matched(cfg) && Inv(cfg, net) && Numbers(net) && Roomy(net)
    requires OfClient(step)
    ensures Inv(cfg, Act(cfg, net, step)) && Numbers(Act(cfg, net, step))
  {
    hide Carried, Traffic, Drawn, Numbers, Ahead, Act, SealedWire;
    StepKeeps(cfg, net, step);
    ClientLocalEffect(cfg, net, step);
    SealedHeader(net.client.keys.value, ClientMessage(cfg, net, step));
    NumbersSeq(net);
    NumbersKept(cfg, net, Act(cfg, net, step));
  }

  lemma NumbersSeq(net: Net)
    requires Epochs(net) && net.client.keys.Some? && net.server.keys.Some? && Numbers(net)
    ensures net.client.keys.value.sendSeq <= TWO32
  {
  }

  /** What the server seals goes downwards. */
  lemma SealedNumbers(cfg: Config, net: Net, net': Net, m: Message)
    requires Inv(cfg, net) && Numbers(net) && Inv(cfg, net') && ServerSealed(net, net', m)
    requires net'.server.keys.value.replay == net.server.keys.value.replay && (Expecting(net') ==> Expecting(net))
    ensures Numbers(net')
  {
    hide Carried, Traffic, Drawn, Numbers, Ahead, Expecting, SealedWire;
    NumbersSeq(net);
    SealedHeader(net.server.keys.value, m);
    NumbersKept(cfg, net, net');
  }

  /** For a step that seals nothing. */
  function NoMessage(): Message {
    Message(seq(NONCE_LEN, _ => 0), [0, 0, 0, 0], 0, [], [])
  }

  lemma ServerLocalNumbers(cfg: Config, net: Net, step: Step)
    requires Matched(cfg) && Inv(cfg, net) && Numbers(net)
    requires OfServer(step)
    ensures Inv(cfg, Act(cfg, net, step)) && Numbers(Act(cfg, net, step))
  {
    hide Inv, Numbers, ServerActs, ServerSend, ServerPacket, Matched;
    StepKeeps(cfg, net, step);
    match step
    case ServerReads(packet, d) =>
      ServerReadsAct(cfg, net, packet, d);
      if Act(cfg, net, step) != net {
        ServerSendNumbers(cfg, net, MSG_DATA, packet, d, Act(cfg, net, step));
      }
    case ServerSends(typ, payload, d) =>
      if Local(typ, false) && |payload| < TWO16 {
        ServerSendNumbers(cfg, net, typ, payload, d, Act(cfg, net, step));
      }
    case ServerTimesOut => TimesOutNumbers(cfg, net);
    case ServerCloses(polite, d) =>
      if polite {
        ServerSendNumbers(cfg, net, MSG_CLOSE, [], d, Act(cfg, net, step));
      } else {
        GoneNumbers(cfg, net, true);
      }
    case ServerFinishes(d) => ServerSendNumbers(cfg, net, MSG_CLOSE, [], d, Act(cfg, net, step));
  }

  lemma ServerSendNumbers(cfg: Config, net: Net, typ: Byte, payload: Bytes, d: Draw, net': Net)
    requires Inv(cfg, net) && Numbers(net) && Inv(cfg, net')
    requires net' == ServerActs(net, ServerSend(net.server, typ, payload, d), {}).(serverGone := net'.serverGone)
    ensures Numbers(net')
  {
    hide Traffic, Drawn, Numbers, ServerActs, ServerSend, ServerSealed;
    var m := Message(d.nonce, net.server.tag, typ, payload, d.padding);
    ServerSendEffect(cfg, net, typ, payload, d);
    SealedGone(net, ServerActs(net, ServerSend(net.server, typ, payload, d), {}), net'.serverGone, m);
    SealedNumbers(cfg, net, net', m);
  }

  lemma GoneNumbers(cfg: Config, net: Net, server: bool)
    requires Inv(cfg, net) && Numbers(net) && Inv(cfg, net.(serverGone := server))
    ensures Numbers(net.(serverGone := server))
  {
    hide Carried, Traffic, Drawn, Numbers;
    SealedNumbers(cfg, net, net.(serverGone := server), NoMessage());
  }

  lemma TimesOutNumbers(cfg: Config, net: Net)
    requires Inv(cfg, net) && Numbers(net) && Inv(cfg, Act(cfg, net, ServerTimesOut))
    ensures Numbers(Act(cfg, net, ServerTimesOut))
  {
    hide Carried, Traffic, Drawn, Numbers;
    SealedNumbers(cfg, net, Act(cfg, net, ServerTimesOut), NoMessage());
  }

  lemma ToServerNumbers(cfg: Config, net: Net, w: Wire, d: Draw)
    requires Matched(cfg) && Inv(cfg, net) && Numbers(net) && Deliverable(net, w)
    requires OpenWire(net.server.keys.value, w).1.Opened? && Carried(w).typ != MSG_REKEY3
    ensures Inv(cfg, Act(cfg, net, ToServer(w, d))) && Numbers(Act(cfg, net, ToServer(w, d)))
  {
    hide Carried, OpenWire, SealedWire, Traffic, Drawn, Act;
    StepKeeps(cfg, net, ToServer(w, d));
    ToServerEffect(cfg, net, w, d);
    SealedHeader(net.server.keys.value, ReplyTo(cfg, net.server, w, d));
    OpenedAtServer(cfg, net, w);
    var net' := Act(cfg, net, ToServer(w, d));
    var k := net.server.keys.value;
    if !Ahead(net) {
      assert Last(net.serverPairs) == Last(net.clientPairs);
      OpenBelow(k, w, net.client.keys.value.sendSeq);
    } else if Expecting(net') {
      if !Expecting(net) {
        StuckToServer(cfg, net, w, d);
      }
      var w3 :| Third(net, w3);
      assert w in net.sent - {w3};
      OpenBelow(k, w, Carried(w3).num);
      assert Third(net', w3);
    }
  }

  lemma Rekey3Numbers(cfg: Config, net: Net, w: Wire, d: Draw)
    requires Matched(cfg) && Inv(cfg, net) && Numbers(net) && Deliverable(net, w)
    requires OpenWire(net.server.keys.value, w).1.Opened? && Carried(w).typ == MSG_REKEY3
    ensures Inv(cfg, Act(cfg, net, ToServer(w, d))) && Numbers(Act(cfg, net, ToServer(w, d)))
  {
    hide Carried, OpenWire, Traffic, Drawn;
    ToServerRekey3(cfg, net, w, d);
    OpenedAtServer(cfg, net, w);
    NextPair(cfg, net, w);
    var net' := Act(cfg, net, ToServer(w, d));
    assert net.sent + Elements([]) == net.sent;
    if Expecting(net) {
      assert Carried(w).tag == net.server.tag by { KnownTag(cfg, net, w); }
      FreshAfterInstall(cfg, net, w, d);
    } else {
      StuckToServer(cfg, net, w, d);
    }
  }

  /** The server installs the pair it expects, with an empty window. */
  lemma FreshAfterInstall(cfg: Config, net: Net, w: Wire, d: Draw)
    requires Matched(cfg) && Inv(cfg, net) && Deliverable(net, w) && Ahead(net) && Expecting(net)
    requires OpenWire(net.server.keys.value, w).1 == Opened(Carried(w))
    requires Carried(w).typ == MSG_REKEY3 && Carried(w).tag == net.server.tag
    requires Carried(w).payload
          == cfg.client.noise.write3(Last(net.clientPairs).client, Last(net.clientPairs).server, cfg.client.identity)
    ensures Act(cfg, net, ToServer(w, d)).server.keys == Some(NewKeys(false, Last(net.clientPairs)))
  {
    hide Carried, OpenWire, Traffic, Drawn;
    var p := Last(net.clientPairs);
    assert cfg.server.noise.read3(p.client, p.server, Carried(w).payload) == Some(cfg.client.identity);
  }

  /** The client has switched: no frame is under its new key yet, and message 3 tops the old one. */
  lemma SwitchedNumbers(cfg: Config, net: Net, net': Net, p: Pair, w3: Wire)
    requires Inv(cfg, net) && Numbers(net) && net.serverPairs == net.clientPairs
    requires Epochs(net') && net'.client.keys.Some? && net'.client.keys.value.sendSeq == 0 && net'.server == net.server
    requires net'.clientPairs == net.clientPairs + [p] && net'.serverPairs == net.serverPairs
    requires net'.sent == net.sent + {w3}
    requires forall i :: 0 <= i < |net.clientPairs| ==> net.clientPairs[i].client != p.client
    requires w3.Box? && w3.key == Key(Last(net.clientPairs), true)
    requires Carried(w3).typ == MSG_REKEY3 && Carried(w3).num == net.client.keys.value.sendSeq
    ensures Numbers(net')
  {
    hide Carried, Traffic, Drawn, Distinct;
    NewKeyUnused(cfg, net, p);
    assert Third(net', w3);
  }

  lemma Rekey2Numbers(cfg: Config, net: Net, w: Wire, d: Draw)
    requires Matched(cfg) && Inv(cfg, net) && Numbers(net) && Roomy(net) && Deliverable(net, w)
    requires OpenWire(net.client.keys.value, w).1.Opened? && Carried(w).typ == MSG_REKEY2
    ensures Inv(cfg, Act(cfg, net, ToClient(w, d))) && Numbers(Act(cfg, net, ToClient(w, d)))
  {
    hide Carried, OpenWire, SealedWire, Traffic, Distinct, Numbers, Act;
    ToClientRekey2(cfg, net, w, d);
    OpenedAtClient(cfg, net, w);
    HeardMeansLevel(cfg, net, w);
    NumbersSeq(net);
    assert net.serverPairs == net.clientPairs;
    Rekey2Effect(cfg, net, w, d);
    var net', k := Act(cfg, net, ToClient(w, d)), OpenWire(net.client.keys.value, w).0;
    if Completes(cfg.client, net.client, Carried(w), d) {
      var (p, m) := Completed(cfg.client, net.client, Carried(w), d);
      assert |m.payload| <= 128;
      CarriedSealed(k, m);
      SwitchedNumbers(cfg, net, net', p, SealedWire(k, m));
    } else {
      NumbersKept(cfg, net, net');
    }
  }

  lemma NewKeyUnused(cfg: Config, net: Net, p: Pair)
    requires Inv(cfg, net)
    requires forall i :: 0 <= i < |net.clientPairs| ==> net.clientPairs[i].client != p.client
    ensures forall w :: w in net.sent && w.Box? ==> w.key != Key(p, true)
  {
    hide Carried, Offered;
    forall w | w in net.sent && w.Box?
      ensures w.key != Key(p, true)
    {
      assert Known(cfg, net.client.tag, net.clientPairs, net.serverPairs, net.used, w);
    }
  }

  lemma ToClientNumbers(cfg: Config, net: Net, w: Wire, d: Draw)
    requires Matched(cfg) && Inv(cfg, net) && Numbers(net) && Deliverable(net, w)
    requires OpenWire(net.client.keys.value, w).1.Opened? && Carried(w).typ != MSG_REKEY2
    ensures Inv(cfg, Act(cfg, net, ToClient(w, d))) && Numbers(Act(cfg, net, ToClient(w, d)))
  {
    hide Carried, OpenWire, Traffic, Drawn, Numbers, Act;
    ToClientOther(cfg, net, w, d);
    OpenedAtClient(cfg, net, w);
    OtherEffect(cfg, net, w, d);
    NumbersSeq(net);
    NumbersKept(cfg, net, Act(cfg, net, ToClient(w, d)));
  }

  lemma DeliveryNumbers(cfg: Config, net: Net, step: Step)
    requires Matched(cfg) && Inv(cfg, net) && Numbers(net) && Roomy(net) && (step.ToServer? || step.ToClient?)
    ensures Inv(cfg, Act(cfg, net, step)) && Numbers(Act(cfg, net, step))
  {
    hide Carried, OpenWire, Traffic, Drawn, Numbers, Matched, Roomy;
    match step
    case ToServer(w, d) =>
      if Deliverable(net, w) {
        if OpenWire(net.server.keys.value, w).1.Refused? {
          RefusedAtServer(cfg, net, w, d);
        } else if Carried(w).typ == MSG_REKEY3 {
          Rekey3Numbers(cfg, net, w, d);
        } else {
          ToServerNumbers(cfg, net, w, d);
        }
      }
    case ToClient(w, d) =>
      if Deliverable(net, w) {
        if OpenWire(net.client.keys.value, w).1.Refused? {
          RefusedAtClient(cfg, net, w, d);
        } else if Carried(w).typ == MSG_REKEY2 {
          Rekey2Numbers(cfg, net, w, d);
        } else {
          ToClientNumbers(cfg, net, w, d);
        }
      }
  }

  lemma StepNumbers(cfg: Config, net: Net, step: Step)
    requires Matched(cfg) && Inv(cfg, net) && Numbers(net) && Roomy(net)
    ensures Inv(cfg, Apply(cfg, net, step)) && Numbers(Apply(cfg, net, step))
  {
    hide Traffic, Drawn, Numbers, Matched, Roomy, Act, Absent, Panics;
    match step
    case ClientReads(_, _) => ClientLocalNumbers(cfg, net, step);
    case ServerReads(_, _) => ServerLocalNumbers(cfg, net, step);
    case ClientSends(_, _, _) => ClientLocalNumbers(cfg, net, step);
    case ClientCloses(_, _) => ClientLocalNumbers(cfg, net, step);
    case ClientRekeys(_) => ClientLocalNumbers(cfg, net, step);
    case ServerSends(_, _, _) => ServerLocalNumbers(cfg, net, step);
    case ServerTimesOut => ServerLocalNumbers(cfg, net, step);
    case ServerCloses(_, _) => ServerLocalNumbers(cfg, net, step);
    case ServerFinishes(_) => ServerLocalNumbers(cfg, net, step);
    case _ => DeliveryNumbers(cfg, net, step);
  }

  lemma {:induction false} RunNumbers(cfg: Config, net: Net, steps: seq<Step>)
    requires Matched(cfg) && Inv(cfg, net) && Numbers(net) && RoomyRun(cfg, net, steps)
    ensures Inv(cfg, Run(cfg, net, steps)) && Numbers(Run(cfg, net, steps))
  {
    hide Traffic, Drawn, Numbers, Matched, Roomy, Apply;
    if steps != [] {
      var k := |steps| - 1;
      var before := steps[..k];
      forall i | 0 <= i < |before|
        ensures Roomy(Run(cfg, net, before[..i]))
      {
        assert before[..i] == steps[..i];
      }
      RunNumbers(cfg, net, before);
      StepNumbers(cfg, Run(cfg, net, before), steps[k]);
    }
  }

  lemma BeginNumbers(cfg: Config, p: Pair, tag: Tag, ip: nat, d: Draw)
    requires Matched(cfg)
    ensures Inv(cfg, Begin(cfg, p, tag, ip, d)) && Numbers(Begin(cfg, p, tag, ip, d))
  {
    hide Traffic, Drawn, Inner, Carried;
    BeginInv(cfg, p, tag, ip, d);
  }

  /** Some run from here brings the server to the client's pair. */
  ghost predicate CatchesUp(cfg: Config, net: Net, steps: seq<Step>) {
    var end := Run(cfg, net, steps);
    end.serverPairs == end.clientPairs
  }

  /**
   * In every reachable state in which the client runs ahead, the server can still catch up if and
   * only if it is there and holds the handshake that the client completed. Otherwise the two ends
   * never agree on a key again within the connection.
   */
  lemma CatchUpIffExpecting(cfg: Config, p: Pair, tag: Tag, ip: nat, d: Draw, steps: seq<Step>)
    requires Matched(cfg) && RoomyRun(cfg, Begin(cfg, p, tag, ip, d), steps)
    requires Ahead(Run(cfg, Begin(cfg, p, tag, ip, d), steps))
    ensures var net := Run(cfg, Begin(cfg, p, tag, ip, d), steps);
            && net.clientPairs != []
            && ((exists more :: CatchesUp(cfg, net, more)) <==> Expecting(net) && !net.serverGone)
  {
    hide Begin, RoomyRun, Traffic, Drawn, Numbers, Matched, Apply, Run;
    BeginNumbers(cfg, p, tag, ip, d);
    RunNumbers(cfg, Begin(cfg, p, tag, ip, d), steps);
    var net := Run(cfg, Begin(cfg, p, tag, ip, d), steps);
    if Expecting(net) && !net.serverGone {
      CaughtUp(cfg, net, d);
    } else {
      forall more
        ensures !CatchesUp(cfg, net, more)
      {
        StuckRun(cfg, net, more);
      }
    }
  }

  /** Delivering message 3 to a server that expects it is all it takes: the window has seen nothing as new. */
  lemma CaughtUp(cfg: Config, net: Net, d: Draw)
    requires Matched(cfg) && Inv(cfg, net) && Numbers(net) && Ahead(net) && Expecting(net) && !net.serverGone
    ensures exists more :: CatchesUp(cfg, net, more)
  {
    hide Carried, OpenWire, Offered, Traffic, Drawn, Act, Overruns;
    var w :| Third(net, w);
    KnownTag(cfg, net, w);
    OpenStep(net.server.keys.value, w);
    ToServerRekey3(cfg, net, w, d);
    OverrunsIff(cfg.server, net.server, w, d);
    var more := [ToServer(w, d)];
    RunOne(cfg, net, more[0]);
    assert Act(cfg, net, ToServer(w, d)).clientPairs == net.clientPairs by { ToServerClient(cfg, net, w, d); }
    assert CatchesUp(cfg, net, more);
  }

  lemma RunOne(cfg: Config, net: Net, step: Step)
    ensures Run(cfg, net, [step]) == Apply(cfg, net, step)
  {
    hide Apply;
    assert [step][..0] == [];
  }

  lemma ToServerClient(cfg: Config, net: Net, w: Wire, d: Draw)
    ensures Act(cfg, net, ToServer(w, d)).clientPairs == net.clientPairs
  {
  }

  // ---- A lost message 3 does cut the client off ----

  function Assigned(cfg: Config, p: Pair, tag: Tag, ip: nat, d: Draw): Wire {
    SealedWire(NewKeys(false, p),
               Message(d.nonce, tag, MSG_ASSIGN, AssignPayload(Assignment(cfg.server.prefix, ip, cfg.server.gw)),
                       d.padding))
  }

  /** The assignment arrives. */
  lemma Connects(cfg: Config, p: Pair, tag: Tag, ip: nat, d: Draw, dc: Draw)
    requires Matched(cfg) && d.sendOk
    ensures !Begin(cfg, p, tag, ip, d).clientGone && !Begin(cfg, p, tag, ip, d).serverGone
    ensures var net' := Act(cfg, Begin(cfg, p, tag, ip, d), ToClient(Assigned(cfg, p, tag, ip, d), dc));
            && net'.client.keys.Some? && net'.client.keys.value.sendSeq == 0
            && net'.client.keys.value.SendKey() == Key(p, true)
            && RS.Check(net'.client.keys.value.replay, 1)
            && net'.client.connected && !net'.client.rekeying && net'.client.tag == tag
            && net'.server == Begin(cfg, p, tag, ip, d).server && net'.used == {p.client, p.server}
            && net'.server.keys == Some(AfterSeal(NewKeys(false, p))) && !net'.server.rekeying && net'.server.tag == tag
            && net'.clientPairs == net'.serverPairs == [p] && !net'.clientGone && !net'.serverGone
  {
    hide Carried, OpenWire, Offered, SealedWire;
    var k, w := NewKeys(true, p), Assigned(cfg, p, tag, ip, d);
    CarriedSealed(NewKeys(false, p),
                  Message(d.nonce, tag, MSG_ASSIGN, AssignPayload(Assignment(cfg.server.prefix, ip, cfg.server.gw)),
                          d.padding));
    OpenStep(k, w);
    ParseAssigned(Assignment(cfg.server.prefix, ip, cfg.server.gw));
    assert [w][0] == w;
    assert {p.client, p.server} + {} == {p.client, p.server};
  }

  function First(cfg: Config, c: Client, d: Draw): Wire
    requires c.keys.Some?
  {
    SealedWire(c.keys.value, Message(d.nonce, c.tag, MSG_REKEY1, cfg.client.noise.write1(d.ephemeral, []), d.padding))
  }

  lemma Starts(cfg: Config, net: Net, d: Draw)
    requires net.client.keys.Some? && net.client.connected && !net.client.rekeying
    requires net.clientPairs == [net.client.keys.value.pair]
    requires d.sendOk && d.ephemeral !in net.used
    ensures var net' := Act(cfg, net, ClientRekeys(d));
            && net'.client == net.client.(keys := Some(AfterSeal(net.client.keys.value)),
                                          rekeyHs := Some(AwaitReply(d.ephemeral)), rekeying := true)
            && First(cfg, net.client, d) in net'.sent
            && net'.server == net.server && net'.used == net.used + {d.ephemeral}
            && net'.clientPairs == net.clientPairs && net'.serverPairs == net.serverPairs
            && net'.clientGone == net.clientGone && net'.serverGone == net.serverGone
  {
    hide SealedWire;
    assert [First(cfg, net.client, d)][0] == First(cfg, net.client, d);
  }

  function Second(cfg: Config, s: Server, e: Point, d: Draw): Wire
    requires s.keys.Some?
  {
    SealedWire(s.keys.value, Message(d.nonce, s.tag, MSG_REKEY2, cfg.server.noise.write2(e, d.ephemeral), d.padding))
  }

  lemma Answers(cfg: Config, net: Net, c: Client, e: Point, dc: Draw, d: Draw)
    requires Matched(cfg) && c.keys.Some? && net.server.keys.Some? && c.tag == net.server.tag && dc.ephemeral == e
    requires c.keys.value.sendSeq == 0 && net.server.keys.value.RecvKey() == c.keys.value.SendKey()
    requires net.server.keys.value.replay == RS.Fresh(REPLAY_WINDOW_SIZE)
    requires First(cfg, c, dc) in net.sent && !net.server.rekeying && net.serverPairs == [net.server.keys.value.pair]
    requires d.sendOk && d.ephemeral !in net.used && d.padding == []
    ensures !Panics(cfg, net, ToServer(First(cfg, c, dc), d))
    ensures var net' := Act(cfg, net, ToServer(First(cfg, c, dc), d));
            && net'.server.rekeying && net'.server.rekeyHs == Some(Pair(e, d.ephemeral))
            && Second(cfg, net.server, e, d) in net'.sent
            && net'.client == net.client && net'.clientPairs == net.clientPairs && net'.serverPairs == net.serverPairs
            && net'.clientGone == net.clientGone && net'.serverGone == net.serverGone
  {
    hide Carried, OpenWire, Offered, SealedWire, Overruns;
    var w, k := First(cfg, c, dc), net.server.keys.value;
    var msg := cfg.client.noise.write1(e, []);
    assert |msg| == 48;
    CarriedSealed(c.keys.value, Message(dc.nonce, c.tag, MSG_REKEY1, msg, dc.padding));
    OpenStep(k, w);
    assert cfg.server.noise.read1(msg) == Some((e, []));
    RepliesInBuffer(cfg.server, net.server, w, d);
    var k' := OpenWire(k, w).0;
    SameSeal(k, k', Message(d.nonce, net.server.tag, MSG_REKEY2, cfg.server.noise.write2(e, d.ephemeral), d.padding));
    assert [Second(cfg, net.server, e, d)][0] == Second(cfg, net.server, e, d);
  }

  /** Message 2 arrives, and message 3 is sent but never delivered. */
  lemma Switches(cfg: Config, net: Net, s: Server, e: Point, ds: Draw, d: Draw)
    requires Matched(cfg) && net.client.keys.Some? && s.keys.Some? && net.client.tag == s.tag
    requires net.client.connected && net.client.rekeying && net.client.rekeyHs == Some(AwaitReply(e))
    requires s.keys.value.SendKey() == net.client.keys.value.RecvKey() && s.keys.value.sendSeq == 1
    requires RS.Check(net.client.keys.value.replay, 1)
    requires Second(cfg, s, e, ds) in net.sent && d.sendOk
    requires net.clientPairs == [net.client.keys.value.pair] && net.client.keys.value.pair.client != e
    ensures var net' := Act(cfg, net, ToClient(Second(cfg, s, e, ds), d));
            && net'.clientPairs == net.clientPairs + [Pair(e, ds.ephemeral)]
            && net'.serverPairs == net.serverPairs && net'.server == net.server
            && net'.clientGone == net.clientGone && net'.serverGone == net.serverGone
  {
    hide Carried, OpenWire, Offered, SealedWire;
    var w, k := Second(cfg, s, e, ds), net.client.keys.value;
    var msg := cfg.client.noise.write2(e, ds.ephemeral);
    assert |msg| <= 128;
    CarriedSealed(s.keys.value, Message(ds.nonce, s.tag, MSG_REKEY2, msg, ds.padding));
    OpenStep(k, w);
    assert cfg.client.noise.read2(e, msg) == Some(ds.ephemeral);
  }

  /**
   * Aborting a rekey does not leave both ends on the old keys: with message 3 lost and the server's
   * timer fired, the client is ahead and the server no longer expects it.
   */
  lemma LostThirdCutsOff(cfg: Config, p: Pair, tag: Tag, ip: nat, d: Draw, e: Point, s: Point)
      returns (steps: seq<Step>)
    requires Matched(cfg) && d.sendOk
    requires e != s && e != p.client && e != p.server && s != p.client && s != p.server
    ensures var net := Run(cfg, Begin(cfg, p, tag, ip, d), steps);
            Ahead(net) && net.clientPairs != [] && !Expecting(net) && !net.clientGone && !net.serverGone
  {
    hide Act, Begin, First, Second, Assigned, SealedWire, Matched, Panics;
    var plain := d.(padding := []);
    var de, ds := plain.(ephemeral := e), plain.(ephemeral := s);
    var n0 := Begin(cfg, p, tag, ip, d);
    var s1 := ToClient(Assigned(cfg, p, tag, ip, d), plain);
    var n1 := Act(cfg, n0, s1);
    Connects(cfg, p, tag, ip, d, plain);
    ClientFits(cfg, n0, s1);
    var s2 := ClientRekeys(de);
    var n2 := Act(cfg, n1, s2);
    Starts(cfg, n1, de);
    ClientFits(cfg, n1, s2);
    var s3 := ToServer(First(cfg, n1.client, de), ds);
    var n3 := Act(cfg, n2, s3);
    Answers(cfg, n2, n1.client, e, de, ds);
    var s4 := ToClient(Second(cfg, n2.server, e, ds), plain);
    var n4 := Act(cfg, n3, s4);
    Switches(cfg, n3, n2.server, e, ds, plain);
    ClientFits(cfg, n3, s4);
    var n5 := Act(cfg, n4, ServerTimesOut);
    steps := [s1, s2, s3, s4, ServerTimesOut];
    RunFive(cfg, n0, s1, s2, s3, s4, ServerTimesOut);
    TimesOut(cfg, n4);
  }

  /** A client that draws no padding does not panic in a rekey. */
  lemma ClientFits(cfg: Config, net: Net, step: Step)
    requires Matched(cfg) && (step.ToClient? || step.ClientRekeys?) && step.d.padding == []
    ensures !Panics(cfg, net, step)
  {
    hide ClientReceive, StartRekey, InBuffer, Ideal;
    RekeyInBuffer(cfg.client, net.client, if step.ToClient? then step.w else Raw([]), step.d);
  }

  lemma TimesOut(cfg: Config, net: Net)
    ensures Act(cfg, net, ServerTimesOut) == net.(server := RekeyTimeout(net.server))
    ensures !Panics(cfg, net, ServerTimesOut)
  {
  }

  lemma RunFive(cfg: Config, net: Net, a: Step, b: Step, c: Step, d: Step, e: Step)
    ensures Run(cfg, net, [a, b, c, d, e])
            == Apply(cfg, Apply(cfg, Apply(cfg, Apply(cfg, Apply(cfg, net, a), b), c), d), e)
  {
    hide Apply;
    assert [a, b, c, d, e][..4] == [a, b, c, d];
    assert [a, b, c, d][..3] == [a, b, c];
    assert [a, b, c][..2] == [a, b];
    assert [a, b][..1] == [a];
    assert [a][..0] == [];
    assert Run(cfg, net, [a]) == Apply(cfg, net, a);
    assert Run(cfg, net, [a, b]) == Apply(cfg, Run(cfg, net, [a]), b);
    assert Run(cfg, net, [a, b, c]) == Apply(cfg, Run(cfg, net, [a, b]), c);
    assert Run(cfg, net, [a, b, c, d]) == Apply(cfg, Run(cfg, net, [a, b, c]), d);
  }
}
