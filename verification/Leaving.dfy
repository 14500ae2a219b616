/**
 * Data stops while a client rekeys. Which rekeying clients can get going again over a lossy network,
 * and which are silent for the rest of the connection.
 */
module Leaving {
  import opened Bytes
  import opened Framing
  import opened NoiseXK
  import opened SessionKeys
  import opened Endpoints
  import opened Lossy
  import opened Recovery
  import RS = ReplaySpec

  // ---- A gated client ----

  /** A rekeying client sends nothing of its own and starts no other rekey. */
  lemma GatedLocal(cfg: Config, net: Net, step: Step)
    requires Inv(cfg, net) && net.client.rekeying
    requires OfClient(step)
    ensures var net' := Act(cfg, net, step);
            net' == net.(used := net'.used, clientGone := net'.clientGone)
  {
    hide SealedWire, Traffic, Drawn;
    assert net.sent + Elements([]) == net.sent;
  }

  /**
   * What the network hands a rekeying client can only move its window or end the connection, unless it
   * completes the rekey.
   */
  lemma GatedHears(cfg: Config, net: Net, w: Wire, d: Draw)
    requires Inv(cfg, net) && net.client.rekeying && net.client.connected && Deliverable(net, w)
    requires OpenWire(net.client.keys.value, w).1.Opened?
    requires Carried(w).typ == MSG_REKEY2 ==> !Completes(cfg.client, net.client, Carried(w), Sure(d))
    ensures var net' := Act(cfg, net, ToClient(w, d));
            && net' == net.(client := net'.client, clientGone := net'.clientGone)
            && net'.client == net.client.(keys := Some(OpenWire(net.client.keys.value, w).0))
  {
    hide Carried, OpenWire, SealedWire, Traffic, Drawn, Act;
    if Carried(w).typ == MSG_REKEY2 {
      Rekey2Effect(cfg, net, w, d);
    } else {
      OtherEffect(cfg, net, w, d);
    }
  }

  lemma ServerKeepsClient(cfg: Config, net: Net, step: Step)
    requires OfServer(step) || step.ToServer?
    ensures var net' := Act(cfg, net, step);
            net'.client == net.client && net'.clientPairs == net.clientPairs && net'.clientGone == net.clientGone
  {
    hide SealedWire, ServerReceive, OpenWire;
  }

  // ---- Message 3 was made but could not be sent ----

  /** The handshake is used up, and the client goes on rekeying. */
  predicate Silenced(net: Net) {
    net.client.keys.Some? && net.client.connected && net.client.rekeying && net.client.rekeyHs == Some(Spent)
  }

  lemma SilencedStep(cfg: Config, net: Net, step: Step)
    requires Inv(cfg, net) && Silenced(net)
    ensures var net' := Apply(cfg, net, step);
            && Silenced(net') && net'.clientPairs == net.clientPairs
            && net'.client.keys.value.sendSeq == net.client.keys.value.sendSeq
  {
    hide Carried, OpenWire, Traffic, Drawn, Act, Absent, Panics;
    if !Absent(net, step) {
      match step
      case ClientReads(_, _) => GatedLocal(cfg, net, step);
      case ClientSends(_, _, _) => GatedLocal(cfg, net, step);
      case ClientRekeys(_) => GatedLocal(cfg, net, step);
      case ClientCloses(_, _) => GatedLocal(cfg, net, step);
      case ToClient(w, d) =>
        if OpenWire(net.client.keys.value, w).1.Refused? {
          RefusedAtClient(cfg, net, w, d);
        } else if Deliverable(net, w) {
          OpenedAtClient(cfg, net, w);
          GatedHears(cfg, net, w, d);
        } else {
          Undeliverable(cfg, net, w, d);
        }
      case _ => ServerKeepsClient(cfg, net, step);
    }
  }

  lemma Undeliverable(cfg: Config, net: Net, w: Wire, d: Draw)
    requires !Deliverable(net, w)
    ensures Act(cfg, net, ToClient(w, d)) == net && Act(cfg, net, ToServer(w, d)) == net
  {
  }

  /**
   * A client whose message 3 could not be sent is silent for the rest of the connection: whatever
   * happens, it stays behind the gate, seals nothing and keeps its keys.
   */
  lemma {:induction false} SilencedRun(cfg: Config, net: Net, steps: seq<Step>)
    requires Matched(cfg) && Inv(cfg, net) && Silenced(net)
    ensures var end := Run(cfg, net, steps);
            && Silenced(end) && end.clientPairs == net.clientPairs
            && end.client.keys.value.sendSeq == net.client.keys.value.sendSeq
  {
    hide Inv, Matched, Apply;
    if steps != [] {
      var k := |steps| - 1;
      SilencedRun(cfg, net, steps[..k]);
      RunKeeps(cfg, net, steps[..k]);
      SilencedStep(cfg, Run(cfg, net, steps[..k]), steps[k]);
    }
  }

  /** It takes one failed Send: message 2 arrives, and message 3 does not leave. */
  lemma FailedThirdSilences(cfg: Config, p: Pair, tag: Tag, ip: nat, d: Draw, e: Point, s: Point)
      returns (steps: seq<Step>)
    requires Matched(cfg) && d.sendOk
    requires e != s && e != p.client && e != p.server && s != p.client && s != p.server
    ensures Silenced(Run(cfg, Begin(cfg, p, tag, ip, d), steps))
    ensures !Run(cfg, Begin(cfg, p, tag, ip, d), steps).clientGone
  {
    hide Act, Begin, First, Second, Assigned, SealedWire, Matched, Panics;
    var plain := d.(padding := []);
    var de, ds, fails := plain.(ephemeral := e), plain.(ephemeral := s), plain.(sendOk := false);
    var n0 := Begin(cfg, p, tag, ip, d);
    var s1 := ToClient(Assigned(cfg, p, tag, ip, d), plain);
    var n1 := Act(cfg, n0, s1);
    Connects(cfg, p, tag, ip, d, plain);
    ClientFits(cfg, n0, s1);
    var s2 := ClientRekeys(de);
    var n2 := Act(cfg, n1, s2);
    Starts(cfg, n1, de);
    ClientFits(cfg, n1, s2);
    var s3 := ToServer(First(cfg, n1.client, de), ds);
    var n3 := Act(cfg, n2, s3);
    Answers(cfg, n2, n1.client, e, de, ds);
    var s4 := ToClient(Second(cfg, n2.server, e, ds), fails);
    Fails(cfg, n3, n2.server, e, ds, fails);
    ClientFits(cfg, n3, s4);
    steps := [s1, s2, s3, s4];
    RunFour(cfg, n0, s1, s2, s3, s4);
  }

  lemma Fails(cfg: Config, net: Net, s: Server, e: Point, ds: Draw, d: Draw)
    requires Matched(cfg) && net.client.keys.Some? && s.keys.Some? && net.client.tag == s.tag
    requires net.client.connected && net.client.rekeying && net.client.rekeyHs == Some(AwaitReply(e))
    requires s.keys.value.SendKey() == net.client.keys.value.RecvKey() && s.keys.value.sendSeq == 1
    requires RS.Check(net.client.keys.value.replay, 1) && Second(cfg, s, e, ds) in net.sent && !d.sendOk
    ensures var net' := Act(cfg, net, ToClient(Second(cfg, s, e, ds), d));
            Silenced(net') && net'.clientGone == net.clientGone
  {
    hide Carried, OpenWire, Offered, SealedWire;
    var w, k := Second(cfg, s, e, ds), net.client.keys.value;
    var msg := cfg.client.noise.write2(e, ds.ephemeral);
    assert |msg| <= 128;
    CarriedSealed(s.keys.value, Message(ds.nonce, s.tag, MSG_REKEY2, msg, ds.padding));
    OpenStep(k, w);
    assert cfg.client.noise.read2(e, msg) == Some(ds.ephemeral);
    Rekey2Client(cfg.client, net.client, w, d);
  }

  lemma RunFour(cfg: Config, net: Net, a: Step, b: Step, c: Step, d: Step)
    ensures Run(cfg, net, [a, b, c, d]) == Apply(cfg, Apply(cfg, Apply(cfg, Apply(cfg, net, a), b), c), d)
  {
    hide Apply, Run;
    RunOne(cfg, net, a);
    RunLast(cfg, net, [a], b);
    RunLast(cfg, net, [a, b], c);
    RunLast(cfg, net, [a, b, c], d);
    assert [a] + [b] == [a, b] && [a, b] + [c] == [a, b, c] && [a, b, c] + [d] == [a, b, c, d];
  }

  lemma RunLast(cfg: Config, net: Net, steps: seq<Step>, step: Step)
    ensures Run(cfg, net, steps + [step]) == Apply(cfg, Run(cfg, net, steps), step)
  {
    hide Apply;
    assert (steps + [step])[..|steps|] == steps;
  }

  // ---- A client that waits for message 2 ----

  /** A message 2 of the handshake e that the client would still accept. */
  ghost predicate Replies(cfg: Config, net: Net, e: Point, w: Wire)
    requires net.client.keys.Some?
  {
    && w in net.sent && w.Box? && w.key == net.client.keys.value.RecvKey() && Carried(w).typ == MSG_REKEY2
    && cfg.client.noise.read2(e, Carried(w).payload).Some? && RS.Check(net.client.keys.value.replay, Carried(w).num)
  }

  /** A message 1 of the handshake e that the server would still accept. */
  ghost predicate Asks(cfg: Config, net: Net, e: Point, w: Wire)
    requires net.server.keys.Some?
  {
    && w in net.sent && w.Box? && w.key == net.server.keys.value.RecvKey() && Carried(w).typ == MSG_REKEY1
    && cfg.server.noise.read1(Carried(w).payload).Some? && cfg.server.noise.read1(Carried(w).payload).value.0 == e
    && RS.Check(net.server.keys.value.replay, Carried(w).num)
  }

  /**
   * The client waits for message 2, and can be given one: if it is ahead, by a server that expects
   * its message 3; otherwise if one that was sent is still good, or its message 1 still is.
   */
  ghost predicate Answerable(cfg: Config, net: Net)
    requires net.client.keys.Some? && net.server.keys.Some? && net.clientPairs != []
  {
    && net.client.rekeyHs.Some? && net.client.rekeyHs.value.AwaitReply?
    && var e := net.client.rekeyHs.value.e;
       if Ahead(net) then Expecting(net) && !net.serverGone
       else (exists w :: Replies(cfg, net, e, w)) || (!net.serverGone && exists w :: Asks(cfg, net, e, w))
  }

  // ---- Unanswerable for good ----

  ghost predicate Unanswered(cfg: Config, net: Net, e: Point)
    requires net.client.keys.Some? && net.server.keys.Some?
  {
    && net.client.connected && net.client.rekeying && net.client.rekeyHs == Some(AwaitReply(e)) && !Ahead(net)
    && (forall w :: w in net.sent ==> !Replies(cfg, net, e, w))
    && (net.serverGone || forall w :: w in net.sent ==> !Asks(cfg, net, e, w))
  }

  /** Nothing that was ever refused is accepted now. */
  ghost predicate NoLaxer(w: RS.Window, w': RS.Window) {
    forall n :: RS.Check(w', n) ==> RS.Check(w, n)
  }

  lemma OpenNoLaxer(k: KeyState, w: Wire)
    ensures NoLaxer(k.replay, OpenWire(k, w).0.replay)
  {
    hide OpenWire, RS.Add, RS.Check, Offered;
    OpenStep(k, w);
    match Offered(k.RecvKey(), w)
    case None =>
    case Some(f) =>
      OfferedBounded(k.RecvKey(), w);
      forall n | !RS.Check(k.replay, n)
        ensures !RS.Check(RS.Offer(k.replay, f.num), n)
      {
        if RS.Check(k.replay, f.num) {
          RS.RefusedStays(k.replay, n, f.num);
        }
      }
  }

  /** The client's window may have moved, and nothing else but its being there. */
  lemma UnansweredClient(cfg: Config, net: Net, net': Net, e: Point)
    requires net.client.keys.Some? && net.server.keys.Some? && Unanswered(cfg, net, e)
    requires net' == net.(client := net'.client, used := net'.used, clientGone := net'.clientGone)
    requires net'.client.keys.Some? && net'.client == net.client.(keys := net'.client.keys)
    requires net'.client.keys.value.RecvKey() == net.client.keys.value.RecvKey()
    requires NoLaxer(net.client.keys.value.replay, net'.client.keys.value.replay)
    ensures Unanswered(cfg, net', e)
  {
    hide Carried, RS.Check;
    forall w | w in net'.sent
      ensures !Replies(cfg, net', e, w) && (net.serverGone || !Asks(cfg, net', e, w))
    {
      assert !Replies(cfg, net, e, w) && (net.serverGone || !Asks(cfg, net, e, w));
    }
  }

  /** The server's window may have moved, and it may have sealed m, which is no message 2 of the handshake. */
  lemma UnansweredServer(cfg: Config, net: Net, net': Net, e: Point, m: Message)
    requires Inv(cfg, net) && Unanswered(cfg, net, e)
    requires net'.client.keys.Some? && net'.server.keys.Some? && ServerSealed(net, net', m)
    requires m.typ == MSG_REKEY2 ==> |m.payload| < TWO16 && cfg.client.noise.read2(e, m.payload).None?
    requires NoLaxer(net.server.keys.value.replay, net'.server.keys.value.replay)
             && (net.serverGone ==> net'.serverGone)
    ensures Unanswered(cfg, net', e)
  {
    hide Carried, RS.Check, SealedWire, Traffic, Drawn;
    var x := SealedWire(net.server.keys.value, m);
    SealedHeader(net.server.keys.value, m);
    if m.typ == MSG_REKEY2 {
      CarriedSealed(net.server.keys.value, m);
    }
    forall w | w in net'.sent
      ensures !Replies(cfg, net', e, w) && (net'.serverGone || !Asks(cfg, net', e, w))
    {
      if w in net.sent {
        assert !Replies(cfg, net, e, w) && (net.serverGone || !Asks(cfg, net, e, w));
      } else {
        assert w == x;
      }
    }
  }

  lemma UnansweredToClient(cfg: Config, net: Net, e: Point, w: Wire, d: Draw)
    requires Inv(cfg, net) && Unanswered(cfg, net, e) && Inv(cfg, Act(cfg, net, ToClient(w, d)))
    ensures Unanswered(cfg, Act(cfg, net, ToClient(w, d)), e)
  {
    hide Carried, OpenWire, Act, Traffic, Drawn, NoLaxer;
    var k := net.client.keys.value;
    if !Deliverable(net, w) {
      Undeliverable(cfg, net, w, d);
    } else if OpenWire(k, w).1.Refused? {
      RefusedAtClient(cfg, net, w, d);
    } else {
      OpenedAtClient(cfg, net, w);
      OpenStep(k, w);
      assert !Replies(cfg, net, e, w);
      GatedHears(cfg, net, w, d);
      OpenNoLaxer(k, w);
      UnansweredClient(cfg, net, Act(cfg, net, ToClient(w, d)), e);
    }
  }

  lemma UnansweredToServer(cfg: Config, net: Net, e: Point, w: Wire, d: Draw)
    requires Matched(cfg) && Inv(cfg, net) && Unanswered(cfg, net, e) && !net.serverGone
    requires Inv(cfg, Act(cfg, net, ToServer(w, d)))
    ensures Unanswered(cfg, Act(cfg, net, ToServer(w, d)), e)
  {
    hide Carried, OpenWire, Act, Traffic, Drawn, NoLaxer, ServerSealed;
    var k := net.server.keys.value;
    if !Deliverable(net, w) {
      Undeliverable(cfg, net, w, d);
    } else if OpenWire(k, w).1.Refused? {
      RefusedAtServer(cfg, net, w, d);
    } else {
      OpenedAtServer(cfg, net, w);
      OpenStep(k, w);
      assert Carried(w).typ != MSG_REKEY3 by {
        if Carried(w).typ == MSG_REKEY3 {
          NextPair(cfg, net, w);
        }
      }
      assert !Asks(cfg, net, e, w);
      ToServerEffect(cfg, net, w, d);
      OpenNoLaxer(k, w);
      SameNoLaxer(k.replay);
      ReplyElse(cfg, net.server, w, d, e);
      UnansweredServer(cfg, net, Act(cfg, net, ToServer(w, d)), e, ReplyTo(cfg, net.server, w, d));
    }
  }

  lemma SameNoLaxer(w: RS.Window)
    ensures NoLaxer(w, w)
  {
  }

  /** The reply to a message 1 of another handshake is no reply to this one. */
  lemma ReplyElse(cfg: Config, s: Server, w: Wire, d: Draw, e: Point)
    requires Matched(cfg)
    requires Carried(w).typ == MSG_REKEY1 && cfg.server.noise.read1(Carried(w).payload).Some? ==>
               cfg.server.noise.read1(Carried(w).payload).value.0 != e
    ensures var m := ReplyTo(cfg, s, w, d);
            m.typ == MSG_REKEY2 ==> |m.payload| < TWO16 && cfg.client.noise.read2(e, m.payload).None?
  {
    hide Carried;
  }

  lemma UnansweredServerLocal(cfg: Config, net: Net, e: Point, step: Step)
    requires Inv(cfg, net) && Unanswered(cfg, net, e) && Inv(cfg, Act(cfg, net, step))
    requires OfServer(step)
    ensures Unanswered(cfg, Act(cfg, net, step), e)
  {
    hide Traffic, Drawn, NoLaxer, ServerSealed, ServerActs, ServerSend, ServerPacket, Unanswered;
    var net' := Act(cfg, net, step);
    SameNoLaxer(net.server.keys.value.replay);
    match step
    case ServerReads(packet, d) =>
      ServerReadsAct(cfg, net, packet, d);
      if net' != net {
        ServerSendEffect(cfg, net, MSG_DATA, packet, d);
        UnansweredServer(cfg, net, net', e, Message(d.nonce, net.server.tag, MSG_DATA, packet, d.padding));
      }
    case ServerSends(typ, payload, d) =>
      if Local(typ, false) && |payload| < TWO16 {
        ServerSendEffect(cfg, net, typ, payload, d);
        UnansweredServer(cfg, net, net', e, Message(d.nonce, net.server.tag, typ, payload, d.padding));
      }
    case ServerTimesOut => UnansweredTimesOut(cfg, net, e);
    case ServerCloses(polite, d) =>
      var m := Message(d.nonce, net.server.tag, MSG_CLOSE, [], d.padding);
      ServerSendEffect(cfg, net, MSG_CLOSE, [], d);
      SealedNothing(net, m);
      SealedGone(net, if polite then ServerActs(net, ServerSend(net.server, MSG_CLOSE, [], d), {}) else net, true, m);
      UnansweredServer(cfg, net, net', e, m);
    case ServerFinishes(d) =>
      ServerSendEffect(cfg, net, MSG_CLOSE, [], d);
      UnansweredServer(cfg, net, net', e, Message(d.nonce, net.server.tag, MSG_CLOSE, [], d.padding));
  }

  lemma UnansweredTimesOut(cfg: Config, net: Net, e: Point)
    requires Inv(cfg, net) && Unanswered(cfg, net, e)
    ensures Unanswered(cfg, Act(cfg, net, ServerTimesOut), e)
  {
    hide Traffic, Drawn, NoLaxer, Unanswered, SealedWire;
    SameNoLaxer(net.server.keys.value.replay);
    UnansweredServer(cfg, net, Act(cfg, net, ServerTimesOut), e, NoMessage());
  }

  lemma UnansweredStep(cfg: Config, net: Net, e: Point, step: Step)
    requires Matched(cfg) && Inv(cfg, net) && Unanswered(cfg, net, e)
    ensures Inv(cfg, Apply(cfg, net, step)) && Unanswered(cfg, Apply(cfg, net, step), e)
  {
    hide Traffic, Drawn, Act, Matched, NoLaxer, Panics;
    StepKeeps(cfg, net, step);
    if !Absent(net, step) {
      match step
      case ToClient(w, d) => UnansweredToClient(cfg, net, e, w, d);
      case ToServer(w, d) => UnansweredToServer(cfg, net, e, w, d);
      case ServerReads(_, _) => UnansweredServerLocal(cfg, net, e, step);
      case ServerSends(_, _, _) => UnansweredServerLocal(cfg, net, e, step);
      case ServerTimesOut => UnansweredServerLocal(cfg, net, e, step);
      case ServerCloses(_, _) => UnansweredServerLocal(cfg, net, e, step);
      case ServerFinishes(_) => UnansweredServerLocal(cfg, net, e, step);
      case _ =>
        GatedLocal(cfg, net, step);
        SameNoLaxer(net.client.keys.value.replay);
        UnansweredClient(cfg, net, Act(cfg, net, step), e);
    }
  }

  lemma {:induction false} UnansweredRun(cfg: Config, net: Net, e: Point, steps: seq<Step>)
    requires Matched(cfg) && Inv(cfg, net) && Unanswered(cfg, net, e)
    ensures Inv(cfg, Run(cfg, net, steps)) && Unanswered(cfg, Run(cfg, net, steps), e)
  {
    hide Traffic, Drawn, Matched, Apply, Unanswered;
    if steps != [] {
      var k := |steps| - 1;
      UnansweredRun(cfg, net, e, steps[..k]);
      UnansweredStep(cfg, Run(cfg, net, steps[..k]), e, steps[k]);
    }
  }

  lemma CutOffStep(cfg: Config, net: Net, step: Step)
    requires Inv(cfg, net) && CutOff(net) && net.client.rekeying
    ensures Apply(cfg, net, step).client.rekeying
  {
    hide Traffic, Drawn, Act, Absent, Panics;
    if !Absent(net, step) {
      match step
      case ToClient(w, d) => AheadHearsNothing(cfg, net, w, d);
      case ClientReads(_, _) => GatedLocal(cfg, net, step);
      case ClientSends(_, _, _) => GatedLocal(cfg, net, step);
      case ClientRekeys(_) => GatedLocal(cfg, net, step);
      case ClientCloses(_, _) => GatedLocal(cfg, net, step);
      case _ => ServerKeepsClient(cfg, net, step);
    }
  }

  lemma {:induction false} CutOffRun(cfg: Config, net: Net, steps: seq<Step>)
    requires Matched(cfg) && Inv(cfg, net) && CutOff(net) && net.client.rekeying
    ensures Run(cfg, net, steps).client.rekeying
  {
    hide Inv, Matched, Apply, CutOff;
    if steps != [] {
      var k := |steps| - 1;
      CutOffRun(cfg, net, steps[..k]);
      RunKeeps(cfg, net, steps[..k]);
      StuckRun(cfg, net, steps[..k]);
      CutOffStep(cfg, Run(cfg, net, steps[..k]), steps[k]);
    }
  }

  lemma UnanswerableForGood(cfg: Config, net: Net, steps: seq<Step>)
    requires Matched(cfg) && Inv(cfg, net) && Asked(cfg, net) && net.client.rekeying && !Answerable(cfg, net)
    ensures Run(cfg, net, steps).client.rekeying
  {
    hide Traffic, Drawn, Matched, Run, Replies, Asks;
    if net.client.rekeyHs == Some(Spent) {
      SilencedRun(cfg, net, steps);
    } else if Ahead(net) {
      CutOffRun(cfg, net, steps);
    } else {
      UnansweredRun(cfg, net, net.client.rekeyHs.value.e, steps);
    }
  }

  // ---- Downwards, frames are numbered too ----

  ghost predicate Down(net: Net)
    requires Epochs(net) && net.client.keys.Some? && net.server.keys.Some?
  {
    && net.server.keys.value.sendSeq <= TWO32
    && Below(net.sent, Key(Last(net.serverPairs), false), net.server.keys.value.sendSeq)
    && if Ahead(net) then net.client.keys.value.replay.high == RS.EMPTY
       else HighBelow(net.client.keys.value.replay, net.server.keys.value.sendSeq)
  }

  /** A rekeying client is connected, and its message 1 was sent under the pair it holds. */
  ghost predicate Asked(cfg: Config, net: Net)
    requires net.clientPairs != []
  {
    net.client.rekeying ==>
      && net.client.connected && net.client.rekeyHs.Some?
      && (net.client.rekeyHs.value.AwaitReply? ==> exists w :: AskedWith(cfg, net, net.client.rekeyHs.value.e, w))
  }

  ghost predicate AskedWith(cfg: Config, net: Net, e: Point, w: Wire)
    requires net.clientPairs != []
  {
    && w in net.sent && w.Box? && w.key == Key(Last(net.clientPairs), true)
    && Carried(w).typ == MSG_REKEY1 && Carried(w).payload == cfg.client.noise.write1(e, [])
  }

  predicate ServerRoomy(net: Net) {
    net.server.keys.Some? ==> net.server.keys.value.sendSeq < TWO32
  }

  /** The server's own frames are numbered next; the client's go the other way. */
  lemma DownServer(cfg: Config, net: Net, net': Net, m: Message)
    requires Inv(cfg, net) && Down(net) && ServerRoomy(net) && Inv(cfg, net') && ServerSealed(net, net', m)
    ensures Down(net')
  {
    hide Carried, SealedWire, Traffic, Drawn;
    SealedHeader(net.server.keys.value, m);
  }

  lemma DownClient(cfg: Config, net: Net, net': Net)
    requires Inv(cfg, net) && Down(net) && Inv(cfg, net')
    requires net'.server == net.server && net'.serverPairs == net.serverPairs && net'.clientPairs == net.clientPairs
    requires forall x :: x in net'.sent && x !in net.sent ==> x.Box? && x.key.toServer
    requires var k, k' := net.client.keys.value, net'.client.keys.value;
             k'.replay == k.replay
             || (!Ahead(net) && HighBelow(k'.replay, net.server.keys.value.sendSeq))
    ensures Down(net')
  {
    hide Carried, Traffic, Drawn;
  }

  lemma DownClientLocal(cfg: Config, net: Net, step: Step)
    requires Matched(cfg) && Inv(cfg, net) && Down(net)
    requires OfClient(step)
    ensures Inv(cfg, Act(cfg, net, step)) && Down(Act(cfg, net, step))
  {
    hide Carried, SealedWire, Traffic, Drawn, Down, Act, Matched;
    StepKeeps(cfg, net, step);
    ClientLocalEffect(cfg, net, step);
    SealedHeader(net.client.keys.value, ClientMessage(cfg, net, step));
    DownClient(cfg, net, Act(cfg, net, step));
  }

  lemma DownToClient(cfg: Config, net: Net, w: Wire, d: Draw)
    requires Matched(cfg) && Inv(cfg, net) && Down(net) && Deliverable(net, w)
    requires OpenWire(net.client.keys.value, w).1.Opened?
    ensures Inv(cfg, Act(cfg, net, ToClient(w, d))) && Down(Act(cfg, net, ToClient(w, d)))
  {
    hide Carried, OpenWire, SealedWire, Traffic, Drawn, Act, Matched;
    StepKeeps(cfg, net, ToClient(w, d));
    OpenedAtClient(cfg, net, w);
    HeardMeansLevel(cfg, net, w);
    assert net.serverPairs == net.clientPairs;
    OpenBelow(net.client.keys.value, w, net.server.keys.value.sendSeq);
    var net' := Act(cfg, net, ToClient(w, d));
    if Carried(w).typ == MSG_REKEY2 {
      Rekey2Effect(cfg, net, w, d);
      if Completes(cfg.client, net.client, Carried(w), d) {
        SealedHeader(OpenWire(net.client.keys.value, w).0, Completed(cfg.client, net.client, Carried(w), d).1);
      } else {
        DownClient(cfg, net, net');
      }
    } else {
      OtherEffect(cfg, net, w, d);
      DownClient(cfg, net, net');
    }
  }

  lemma DownServerLocal(cfg: Config, net: Net, step: Step)
    requires Matched(cfg) && Inv(cfg, net) && Down(net) && ServerRoomy(net)
    requires OfServer(step)
    ensures Inv(cfg, Act(cfg, net, step)) && Down(Act(cfg, net, step))
  {
    hide Traffic, Drawn, ServerSealed, ServerActs, ServerSend, ServerPacket, Down, Matched;
    StepKeeps(cfg, net, step);
    var net' := Act(cfg, net, step);
    match step
    case ServerReads(packet, d) =>
      ServerReadsAct(cfg, net, packet, d);
      if net' != net {
        ServerSendEffect(cfg, net, MSG_DATA, packet, d);
        DownServer(cfg, net, net', Message(d.nonce, net.server.tag, MSG_DATA, packet, d.padding));
      }
    case ServerSends(typ, payload, d) =>
      if Local(typ, false) && |payload| < TWO16 {
        ServerSendEffect(cfg, net, typ, payload, d);
        DownServer(cfg, net, net', Message(d.nonce, net.server.tag, typ, payload, d.padding));
      }
    case ServerTimesOut => DownTimesOut(cfg, net);
    case ServerCloses(polite, d) =>
      var m := Message(d.nonce, net.server.tag, MSG_CLOSE, [], d.padding);
      ServerSendEffect(cfg, net, MSG_CLOSE, [], d);
      SealedNothing(net, m);
      SealedGone(net, if polite then ServerActs(net, ServerSend(net.server, MSG_CLOSE, [], d), {}) else net, true, m);
      DownServer(cfg, net, net', m);
    case ServerFinishes(d) =>
      ServerSendEffect(cfg, net, MSG_CLOSE, [], d);
      DownServer(cfg, net, net', Message(d.nonce, net.server.tag, MSG_CLOSE, [], d.padding));
  }

  lemma DownTimesOut(cfg: Config, net: Net)
    requires Inv(cfg, net) && Down(net) && ServerRoomy(net) && Inv(cfg, Act(cfg, net, ServerTimesOut))
    ensures Down(Act(cfg, net, ServerTimesOut))
  {
    hide Traffic, Drawn, SealedWire, Down;
    DownServer(cfg, net, Act(cfg, net, ServerTimesOut), NoMessage());
  }

  /** Nothing is under a pair the server has not installed. */
  lemma NoneUnderNext(cfg: Config, net: Net)
    requires Inv(cfg, net) && Ahead(net)
    ensures forall w :: w in net.sent && w.Box? ==> w.key != Key(Last(net.clientPairs), false)
  {
    hide Carried, Offered, Drawn;
    forall w | w in net.sent && w.Box?
      ensures w.key != Key(Last(net.clientPairs), false)
    {
      if w.key == Key(Last(net.clientPairs), false) {
        HeardMeansLevel(cfg, net, w);
      }
    }
  }

  lemma DownRekey3(cfg: Config, net: Net, w: Wire, d: Draw)
    requires Matched(cfg) && Inv(cfg, net) && Down(net) && Deliverable(net, w)
    requires OpenWire(net.server.keys.value, w).1.Opened? && Carried(w).typ == MSG_REKEY3
    ensures Inv(cfg, Act(cfg, net, ToServer(w, d))) && Down(Act(cfg, net, ToServer(w, d)))
  {
    hide Carried, OpenWire, Traffic, Drawn, ServerReceive;
    ToServerRekey3(cfg, net, w, d);
    OpenedAtServer(cfg, net, w);
    NextPair(cfg, net, w);
    KnownTag(cfg, net, w);
    NoneUnderNext(cfg, net);
    Rekey3Server(cfg.server, net.server, w, d);
    assert net.sent + Elements([]) == net.sent;
  }

  lemma StepDown(cfg: Config, net: Net, step: Step)
    requires Matched(cfg) && Inv(cfg, net) && Down(net) && ServerRoomy(net)
    ensures Inv(cfg, Apply(cfg, net, step)) && Down(Apply(cfg, net, step))
  {
    hide Carried, OpenWire, Traffic, Drawn, Down, Matched, ServerRoomy, Act, Absent, Panics, ServerSealed;
    match step
    case ToClient(w, d) =>
      if !Deliverable(net, w) {
        Undeliverable(cfg, net, w, d);
      } else if OpenWire(net.client.keys.value, w).1.Refused? {
        RefusedAtClient(cfg, net, w, d);
      } else {
        DownToClient(cfg, net, w, d);
      }
    case ToServer(w, d) =>
      if !Deliverable(net, w) {
        Undeliverable(cfg, net, w, d);
      } else if OpenWire(net.server.keys.value, w).1.Refused? {
        RefusedAtServer(cfg, net, w, d);
      } else if Carried(w).typ == MSG_REKEY3 {
        DownRekey3(cfg, net, w, d);
      } else {
        StepKeeps(cfg, net, step);
        ToServerEffect(cfg, net, w, d);
        DownServer(cfg, net, Act(cfg, net, step), ReplyTo(cfg, net.server, w, d));
      }
    case ServerReads(_, _) => DownServerLocal(cfg, net, step);
    case ServerSends(_, _, _) => DownServerLocal(cfg, net, step);
    case ServerTimesOut => DownServerLocal(cfg, net, step);
    case ServerCloses(_, _) => DownServerLocal(cfg, net, step);
    case ServerFinishes(_) => DownServerLocal(cfg, net, step);
    case _ => DownClientLocal(cfg, net, step);
  }

  // ---- Message 1 was sent ----

  lemma SentGrows(cfg: Config, net: Net, step: Step)
    ensures net.sent <= Act(cfg, net, step).sent
  {
    hide SealedWire, ServerReceive, ClientReceive, OpenWire;
  }

  /** The client goes on with the same handshake under the same pair, or stops rekeying. */
  lemma AskedKept(cfg: Config, net: Net, net': Net)
    requires net.clientPairs != [] && net'.clientPairs != [] && Asked(cfg, net) && net.sent <= net'.sent
    requires net'.client.rekeying ==>
               && net.client.rekeying && net'.clientPairs == net.clientPairs
               && (net.client.connected ==> net'.client.connected)
               && (net'.client.rekeyHs == net.client.rekeyHs || net'.client.rekeyHs == Some(Spent))
    ensures Asked(cfg, net')
  {
    hide Carried;
    if net'.client.rekeying && net'.client.rekeyHs != Some(Spent) && net.client.rekeyHs.value.AwaitReply? {
      var w :| AskedWith(cfg, net, net.client.rekeyHs.value.e, w);
      assert AskedWith(cfg, net', net.client.rekeyHs.value.e, w);
    }
  }

  lemma AskedStart(cfg: Config, net: Net, d: Draw)
    requires Matched(cfg) && Inv(cfg, net) && !net.client.rekeying
    ensures var net' := Act(cfg, net, ClientRekeys(d)); net'.clientPairs != [] && Asked(cfg, net')
  {
    hide Carried, SealedWire, Traffic, Drawn;
    var k, msg := net.client.keys.value, cfg.client.noise.write1(d.ephemeral, []);
    assert |msg| == 48;
    var m := Message(d.nonce, net.client.tag, MSG_REKEY1, msg, d.padding);
    CarriedSealed(k, m);
    ElementsOne(SealedWire(k, m));
    var net' := Act(cfg, net, ClientRekeys(d));
    if net'.client.rekeying {
      assert AskedWith(cfg, net', d.ephemeral, SealedWire(k, m));
    }
  }

  lemma StepAsked(cfg: Config, net: Net, step: Step)
    requires Matched(cfg) && Inv(cfg, net) && Asked(cfg, net) && Inv(cfg, Act(cfg, net, step))
    ensures Asked(cfg, Act(cfg, net, step))
  {
    hide Carried, OpenWire, SealedWire, Traffic, Drawn, Act, Asked, Matched, ClientSealed;
    SentGrows(cfg, net, step);
    match step
    case ToClient(w, d) =>
      if !Deliverable(net, w) {
        Undeliverable(cfg, net, w, d);
      } else if OpenWire(net.client.keys.value, w).1.Refused? {
        RefusedAtClient(cfg, net, w, d);
      } else {
        OpenedAtClient(cfg, net, w);
        if Carried(w).typ == MSG_REKEY2 { Rekey2Effect(cfg, net, w, d); } else { OtherEffect(cfg, net, w, d); }
        AskedKept(cfg, net, Act(cfg, net, step));
      }
    case ClientRekeys(d) =>
      if net.client.rekeying {
        GatedLocal(cfg, net, step);
        AskedKept(cfg, net, Act(cfg, net, step));
      } else {
        AskedStart(cfg, net, d);
      }
    case ClientReads(_, _) =>
      ClientLocalEffect(cfg, net, step);
      AskedKept(cfg, net, Act(cfg, net, step));
    case ClientSends(_, _, _) =>
      ClientLocalEffect(cfg, net, step);
      AskedKept(cfg, net, Act(cfg, net, step));
    case ClientCloses(_, _) =>
      ClientLocalEffect(cfg, net, step);
      AskedKept(cfg, net, Act(cfg, net, step));
    case _ =>
      ServerKeepsClient(cfg, net, step);
      AskedKept(cfg, net, Act(cfg, net, step));
  }

  predicate ServerRoomyRun(cfg: Config, net: Net, steps: seq<Step>) {
    forall i :: 0 <= i < |steps| ==> ServerRoomy(Run(cfg, net, steps[..i]))
  }

  lemma {:induction false} RunDown(cfg: Config, net: Net, steps: seq<Step>)
    requires Matched(cfg) && Inv(cfg, net) && Down(net) && Asked(cfg, net) && ServerRoomyRun(cfg, net, steps)
    ensures Inv(cfg, Run(cfg, net, steps)) && Down(Run(cfg, net, steps)) && Asked(cfg, Run(cfg, net, steps))
  {
    hide Traffic, Drawn, Down, Asked, Matched, ServerRoomy, Act, Absent, Panics;
    if steps != [] {
      var k := |steps| - 1;
      var before := steps[..k];
      forall i | 0 <= i < |before|
        ensures ServerRoomy(Run(cfg, net, before[..i]))
      {
        assert before[..i] == steps[..i];
      }
      RunDown(cfg, net, before);
      var x := Run(cfg, net, before);
      StepDown(cfg, x, steps[k]);
      StepKeeps(cfg, x, steps[k]);
      StepAsked(cfg, x, steps[k]);
    }
  }

  lemma BeginDown(cfg: Config, p: Pair, tag: Tag, ip: nat, d: Draw)
    requires Matched(cfg)
    ensures Inv(cfg, Begin(cfg, p, tag, ip, d)) && Down(Begin(cfg, p, tag, ip, d))
    ensures Asked(cfg, Begin(cfg, p, tag, ip, d))
  {
    hide Traffic, Drawn, SealedWire, Carried;
    BeginInv(cfg, p, tag, ip, d);
    SealedHeader(NewKeys(false, p),
                 Message(d.nonce, tag, MSG_ASSIGN, AssignPayload(Assignment(cfg.server.prefix, ip, cfg.server.gw)),
                         d.padding));
  }

  // ---- Out of the gate ----

  /** The client still waits for message 2 under the pair that both ends hold. */
  predicate Waits(net: Net, e: Point) {
    && net.client.connected && net.client.rekeying && net.client.rekeyHs == Some(AwaitReply(e)) && !Ahead(net)
    && !net.clientGone
  }

  /** Message 2 arrives: the client installs the new pair and is out. */
  lemma HearsReply(cfg: Config, net: Net, e: Point, w: Wire, d: Draw)
    requires Matched(cfg) && Inv(cfg, net) && Waits(net, e) && Replies(cfg, net, e, w) && d.sendOk && d.padding == []
    ensures !Apply(cfg, net, ToClient(w, d)).client.rekeying
  {
    hide Carried, OpenWire, SealedWire, Traffic, Drawn, Act, Panics;
    ClientFits(cfg, net, ToClient(w, d));
    KnownTag(cfg, net, w);
    OpenStep(net.client.keys.value, w);
    Rekey2Effect(cfg, net, w, d);
  }

  lemma AnswerEffect(cfg: Config, net: Net, e: Point, w: Wire, d: Draw)
    requires Inv(cfg, net) && !net.server.rekeying && Asks(cfg, net, e, w) && d.sendOk && d.ephemeral !in net.used
    ensures var net', k := Act(cfg, net, ToServer(w, d)), net.server.keys.value;
            var m := Message(d.nonce, net.server.tag, MSG_REKEY2, cfg.server.noise.write2(e, d.ephemeral), d.padding);
            && net'.client == net.client && net'.clientPairs == net.clientPairs && net'.serverPairs == net.serverPairs
            && net'.clientGone == net.clientGone && SealedWire(k, m) in net'.sent
  {
    hide Carried, OpenWire, SealedWire, Traffic, Drawn, ServerReceive;
    var s, k := net.server, OpenWire(net.server.keys.value, w).0;
    KnownTag(cfg, net, w);
    OpenStep(s.keys.value, w);
    Rekey1Server(cfg.server, s, w, d);
    var (p, m) := TakenUp(cfg.server, s, Carried(w), d);
    ElementsOne(SealedWire(k, m));
    SameSeal(s.keys.value, k, m);
  }

  /** Message 1 arrives at a server with no rekey on: its message 2 is one the client accepts. */
  lemma AnswersAgain(cfg: Config, net: Net, e: Point, w: Wire, d: Draw) returns (w2: Wire)
    requires Matched(cfg) && Inv(cfg, net) && Waits(net, e) && !net.server.rekeying && Asks(cfg, net, e, w)
    requires ServerRoomy(net) && HighBelow(net.client.keys.value.replay, net.server.keys.value.sendSeq)
    requires d.sendOk && d.ephemeral !in net.used && d.padding == []
    ensures !Panics(cfg, net, ToServer(w, d))
    ensures var net' := Act(cfg, net, ToServer(w, d));
            Inv(cfg, net') && Waits(net', e) && Replies(cfg, net', e, w2)
  {
    hide Carried, SealedWire, Traffic, Drawn, Act, Overruns, OpenWire;
    OpenStep(net.server.keys.value, w);
    KnownTag(cfg, net, w);
    RepliesInBuffer(cfg.server, net.server, w, d);
    StepKeeps(cfg, net, ToServer(w, d));
    AnswerEffect(cfg, net, e, w, d);
    var k := net.server.keys.value;
    var m := Message(d.nonce, net.server.tag, MSG_REKEY2, cfg.server.noise.write2(e, d.ephemeral), d.padding);
    assert |m.payload| <= 128 && cfg.client.noise.read2(e, m.payload) == Some(d.ephemeral);
    w2 := SealedWire(k, m);
    CarriedSealed(k, m);
    assert Last(net.serverPairs) == Last(net.clientPairs);
  }

  /**
   * With its message 1 still good at the server, the client can get out: the timer fires, message 1 and
   * then message 2 arrive.
   */
  lemma OutByFirst(cfg: Config, net: Net, e: Point, w: Wire, d: Draw) returns (more: seq<Step>)
    requires Matched(cfg) && Inv(cfg, net) && Waits(net, e) && !net.serverGone && Asks(cfg, net, e, w)
    requires ServerRoomy(net) && HighBelow(net.client.keys.value.replay, net.server.keys.value.sendSeq)
    requires d.sendOk && d.ephemeral !in net.used && d.padding == []
    ensures !Run(cfg, net, more).client.rekeying
  {
    hide Carried, Traffic, Drawn, Act, Matched, Run, Replies, Panics;
    var n1 := Act(cfg, net, ServerTimesOut);
    StepKeeps(cfg, net, ServerTimesOut);
    TimesOut(cfg, net);
    assert Asks(cfg, n1, e, w);
    var w2 := AnswersAgain(cfg, n1, e, w, d);
    HearsReply(cfg, Act(cfg, n1, ToServer(w, d)), e, w2, d);
    more := [ServerTimesOut, ToServer(w, d), ToClient(w2, d)];
    RunOne(cfg, net, ServerTimesOut);
    RunLast(cfg, net, [ServerTimesOut], ToServer(w, d));
    RunLast(cfg, net, [ServerTimesOut, ToServer(w, d)], ToClient(w2, d));
    assert [ServerTimesOut] + [ToServer(w, d)] == [ServerTimesOut, ToServer(w, d)];
    assert [ServerTimesOut, ToServer(w, d)] + [ToClient(w2, d)] == more;
  }

  /** The server catches up: it starts on the client's pair afresh, with no rekey on. */
  lemma StartsAfresh(cfg: Config, net: Net, w: Wire, d: Draw)
    requires Matched(cfg) && Inv(cfg, net) && Ahead(net) && Expecting(net) && Third(net, w)
    ensures !Panics(cfg, net, ToServer(w, d))
    ensures var net' := Act(cfg, net, ToServer(w, d));
            && Inv(cfg, net') && net'.serverPairs == net.clientPairs
            && net'.server.keys == Some(NewKeys(false, Last(net.clientPairs)))
            && net'.client == net.client && net'.clientPairs == net.clientPairs && net'.sent == net.sent
            && net'.used == net.used
            && net'.clientGone == net.clientGone && net'.serverGone == net.serverGone
  {
    hide Carried, OpenWire, Traffic, Drawn, ServerReceive, Overruns;
    KnownTag(cfg, net, w);
    OpenStep(net.server.keys.value, w);
    ToServerRekey3(cfg, net, w, d);
    OverrunsIff(cfg.server, net.server, w, d);
    NextPair(cfg, net, w);
    Rekey3Server(cfg.server, net.server, w, d);
    assert net.sent + Elements([]) == net.sent && net.used + {} == net.used;
  }

  lemma OutByThird(cfg: Config, net: Net, e: Point, d: Draw) returns (more: seq<Step>)
    requires Matched(cfg) && Inv(cfg, net) && Numbers(net) && Down(net) && Asked(cfg, net)
    requires Ahead(net) && Expecting(net) && !net.clientGone && !net.serverGone
    requires net.client.rekeying && net.client.rekeyHs == Some(AwaitReply(e))
    requires d.sendOk && d.ephemeral !in net.used && d.padding == []
    ensures !Run(cfg, net, more).client.rekeying
  {
    hide Carried, Traffic, Drawn, Act, Run, Third, AskedWith, Panics;
    var w3 :| Third(net, w3);
    var w1 :| AskedWith(cfg, net, e, w1);
    StartsAfresh(cfg, net, w3, d);
    var n1 := Act(cfg, net, ToServer(w3, d));
    AsksAfresh(cfg, net, n1, e, w1);
    var rest := OutByFirst(cfg, n1, e, w1, d);
    more := [ToServer(w3, d)] + rest;
    RunOne(cfg, net, ToServer(w3, d));
    RunAppend(cfg, net, [ToServer(w3, d)], rest);
  }

  lemma AsksAfresh(cfg: Config, net: Net, net': Net, e: Point, w: Wire)
    requires Matched(cfg) && net.clientPairs != [] && AskedWith(cfg, net, e, w) && net'.sent == net.sent
    requires net'.server.keys == Some(NewKeys(false, Last(net.clientPairs)))
    ensures Asks(cfg, net', e, w)
  {
    hide Carried;
  }

  lemma {:induction false} RunAppend(cfg: Config, net: Net, a: seq<Step>, b: seq<Step>)
    ensures Run(cfg, net, a + b) == Run(cfg, Run(cfg, net, a), b)
  {
    hide Apply;
    if b == [] {
      assert a + b == a;
    } else {
      var n := |b| - 1;
      assert (a + b)[..|a + b| - 1] == a + b[..n];
      RunAppend(cfg, net, a, b[..n]);
    }
  }

  lemma OutOfTheGate(cfg: Config, net: Net, d: Draw) returns (more: seq<Step>)
    requires Matched(cfg) && Inv(cfg, net) && Numbers(net) && Down(net) && Asked(cfg, net) && ServerRoomy(net)
    requires net.client.rekeying && !net.clientGone && Answerable(cfg, net)
    requires d.sendOk && d.ephemeral !in net.used && d.padding == []
    ensures !Run(cfg, net, more).client.rekeying
  {
    hide Traffic, Drawn, Matched, Run, Replies, Asks, Numbers;
    var e := net.client.rekeyHs.value.e;
    if Ahead(net) {
      more := OutByThird(cfg, net, e, d);
    } else if w :| Replies(cfg, net, e, w) {
      HearsReply(cfg, net, e, w, d);
      more := [ToClient(w, d)];
      RunOne(cfg, net, ToClient(w, d));
    } else {
      var w :| Asks(cfg, net, e, w);
      more := OutByFirst(cfg, net, e, w, d);
    }
  }

  /** Some run from here brings the client out of the gate. */
  ghost predicate Escapes(cfg: Config, net: Net, more: seq<Step>) {
    !Run(cfg, net, more).client.rekeying
  }

  /**
   * In every reachable state in which a client that is still there rekeys, it can ever send data
   * again in this connection if and only if it waits for a message 2 that it can still be given.
   */
  lemma EscapesIffAnswerable(cfg: Config, p: Pair, tag: Tag, ip: nat, d: Draw, steps: seq<Step>, later: Draw)
    requires Matched(cfg) && RoomyRun(cfg, Begin(cfg, p, tag, ip, d), steps)
    requires ServerRoomyRun(cfg, Begin(cfg, p, tag, ip, d), steps)
    requires var net := Run(cfg, Begin(cfg, p, tag, ip, d), steps);
             && net.client.rekeying && !net.clientGone && ServerRoomy(net)
             && later.sendOk && later.ephemeral !in net.used
    ensures var net := Run(cfg, Begin(cfg, p, tag, ip, d), steps);
            && net.client.keys.Some? && net.server.keys.Some? && net.clientPairs != []
            && ((exists more :: Escapes(cfg, net, more)) <==> Answerable(cfg, net))
  {
    hide Begin, RoomyRun, ServerRoomyRun, Traffic, Drawn, Numbers, Down, Asked, Matched, Run, Answerable, ServerRoomy;
    BeginNumbers(cfg, p, tag, ip, d);
    BeginDown(cfg, p, tag, ip, d);
    RunNumbers(cfg, Begin(cfg, p, tag, ip, d), steps);
    RunDown(cfg, Begin(cfg, p, tag, ip, d), steps);
    var net := Run(cfg, Begin(cfg, p, tag, ip, d), steps);
    if Answerable(cfg, net) {
      var more := OutOfTheGate(cfg, net, later.(padding := []));
      assert Escapes(cfg, net, more);
    } else {
      forall more
        ensures !Escapes(cfg, net, more)
      {
        UnanswerableForGood(cfg, net, more);
      }
    }
  }
}
