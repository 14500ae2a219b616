/** One server session from its first datagram to its end: what has to happen before a packet reaches the TUN. */
module Gate {
  import opened Bytes
  import opened IPv4
  import opened Framing
  import opened NoiseXK
  import opened SessionKeys
  import opened Endpoints

  /** What the session's goroutine is handed, with the manager's answers to what it may ask. */
  datatype Input =
    | Datagram(w: Wire, bare: Door, cookied: Door, address: Option<nat>, d: Draw)
    | Reply(packet: Bytes, d: Draw)
    | Decoy(payload: Bytes, d: Draw)
    | Tick
    | Leave(d: Draw)
    | Finish(d: Draw)
    | SetPeers(peers: set<Point>)

  /**
   * What the session has done: sent, written, or joined, with a key and an address, under the peer
   * list of that moment, on the keys of a handshake; `told` says that the assignment's Send succeeded.
   */
  datatype Mark =
    | Joined(key: Point, ip: nat, peers: set<Point>, pair: Pair, tag: Tag, told: bool)
    | Sent(w: Wire)
    | Wrote(packet: Bytes)

  datatype World = World(session: Server, peers: set<Point>, over: bool, trace: seq<Mark>)

  /** `allowPeer`: an empty list lets everyone in. */
  predicate Allowed(peers: set<Point>, key: Point) {
    peers == {} || key in peers
  }

  /** `handle`: raw Noise messages until there are keys, AEAD frames afterwards. */
  function Handle(cfg: ServerConfig, s: Server, peers: set<Point>, i: Input): ServerStep
    requires i.Datagram?
  {
    if s.keys.Some? then ServerReceive(cfg, s, i.w, i.d)
    else if s.hs.None? then Handshake1(cfg, s, i.w, i.bare, i.cookied, i.d)
    else Handshake3(cfg, s, i.w, (key: Point) => Allowed(peers, key), i.address, i.d)
  }

  function SentMarks(ws: seq<Wire>): seq<Mark> {
    seq(|ws|, i requires 0 <= i < |ws| => Sent(ws[i]))
  }

  function WroteMarks(ps: seq<Bytes>): seq<Mark> {
    seq(|ps|, i requires 0 <= i < |ps| => Wrote(ps[i]))
  }

  function JoinMark(before: Server, r: ServerStep, peers: set<Point>): seq<Mark> {
    var s := r.server;
    if before.keys.None? && s.keys.Some? && s.clientKey.Some? && s.ip.Some?
    then [Joined(s.clientKey.value, s.ip.value, peers, s.keys.value.pair, s.tag, r.sends != [])] else []
  }

  function Took(x: World, r: ServerStep): World {
    x.(session := r.server, over := r.fatal,
       trace := x.trace + JoinMark(x.session, r, x.peers) + SentMarks(r.sends) + WroteMarks(r.tun))
  }

  /** A session that is over only finishes, with a close of its own. */
  function Step(cfg: ServerConfig, x: World, i: Input): World {
    if x.over != i.Finish? then x
    else
      match i
      case Datagram(_, _, _, _, _) => Took(x, Handle(cfg, x.session, x.peers, i))
      case Reply(packet, d) => Took(x, ServerPacket(x.session, packet, d))
      case Decoy(payload, d) =>
        if x.session.keys.Some? && !x.session.rekeying then Took(x, ServerSend(x.session, MSG_DECOY, payload, d)) else x
      case Tick => x.(session := RekeyTimeout(x.session))
      case Leave(d) =>
        if x.session.keys.None? then x.(over := true)
        else Took(x, ServerSend(x.session, MSG_CLOSE, [], d).(fatal := true))
      case Finish(d) =>
        if x.session.keys.None? then x else Took(x, ServerSend(x.session, MSG_CLOSE, [], d).(fatal := true))
      case SetPeers(peers) => x.(peers := peers)
  }

  function Run(cfg: ServerConfig, x: World, ins: seq<Input>): World {
    if ins == [] then x else Step(cfg, Run(cfg, x, ins[..|ins| - 1]), ins[|ins| - 1])
  }

  function Start(peers: set<Point>): World {
    World(Server(None, None, None, [0, 0, 0, 0], None, false, None), peers, false, [])
  }

  /** The session joined at position j as the holder of `key` and `ip`. */
  ghost predicate JoinedAt(trace: seq<Mark>, j: nat, key: Point, ip: nat) {
    && j < |trace| && trace[j].Joined? && trace[j].key == key && trace[j].ip == ip
    && Allowed(trace[j].peers, key)
  }

  /** Nothing but raw handshake messages and cookies has left, and nothing was written. */
  predicate Outside(trace: seq<Mark>) {
    forall i :: 0 <= i < |trace| ==> trace[i].Sent? && trace[i].w.Raw?
  }

  /** Everything after the join at j is traffic of that one client. */
  predicate Inside(cfg: ServerConfig, ip: nat, marks: seq<Mark>) {
    forall i :: 0 <= i < |marks| ==>
      !marks[i].Joined? && (marks[i].Wrote? ==> Admissible(cfg, ip, marks[i].packet))
  }

  /** The address assignment of the join m: number 0 under the keys it joined with. */
  predicate Assigns(cfg: ServerConfig, m: Mark, w: Wire)
    requires m.Joined?
  {
    && w.Box? && w.key == Key(m.pair, false)
    && Carried(w) == Frame(m.tag, MSG_ASSIGN, 0, AssignPayload(Assignment(cfg.prefix, m.ip, cfg.gw)))
  }

  /** If it was told its address, the client was told at once. */
  predicate ToldNext(cfg: ServerConfig, trace: seq<Mark>, j: nat)
    requires j < |trace| && trace[j].Joined?
  {
    trace[j].told ==> j + 1 < |trace| && trace[j + 1].Sent? && Assigns(cfg, trace[j], trace[j + 1].w)
  }

  ghost predicate Inv(cfg: ServerConfig, x: World) {
    if x.session.keys.None? then Outside(x.trace) && x.session.ip.None? && !x.session.rekeying
    else
      && x.session.clientKey.Some? && x.session.ip.Some?
      && exists j: nat :: Settled(cfg, x.trace, j, x.session.clientKey.value, x.session.ip.value)
  }

  /** The trace of a session that joined at j. */
  ghost predicate Settled(cfg: ServerConfig, trace: seq<Mark>, j: nat, key: Point, ip: nat) {
    && JoinedAt(trace, j, key, ip)
    && Outside(trace[..j]) && ToldNext(cfg, trace, j) && Inside(cfg, ip, trace[j + 1..])
  }

  lemma SettledMore(cfg: ServerConfig, trace: seq<Mark>, more: seq<Mark>, j: nat, key: Point, ip: nat)
    requires Settled(cfg, trace, j, key, ip) && Inside(cfg, ip, more)
    ensures Settled(cfg, trace + more, j, key, ip)
  {
    hide Admissible, Assigns;
    assert (trace + more)[..j] == trace[..j];
    assert (trace + more)[j + 1..] == trace[j + 1..] + more;
  }

  lemma InsideTook(cfg: ServerConfig, x: World, r: ServerStep)
    requires Inv(cfg, x) && x.session.keys.Some?
    requires r.server.keys.Some? && r.server.clientKey == x.session.clientKey && r.server.ip == x.session.ip
    requires forall k :: 0 <= k < |r.tun| ==> Admissible(cfg, x.session.ip.value, r.tun[k])
    ensures Inv(cfg, Took(x, r))
  {
    hide Admissible, Settled;
    var j: nat :| Settled(cfg, x.trace, j, x.session.clientKey.value, x.session.ip.value);
    var more := SentMarks(r.sends) + WroteMarks(r.tun);
    assert Took(x, r).trace == x.trace + more;
    SettledMore(cfg, x.trace, more, j, x.session.clientKey.value, x.session.ip.value);
  }

  /** Frames change neither who the client is nor where it lives, and only data with its own source gets through. */
  lemma ReceiveEffect(cfg: ServerConfig, s: Server, w: Wire, d: Draw)
    requires s.keys.Some? && s.ip.Some?
    ensures var r := ServerReceive(cfg, s, w, d);
            && r.server.keys.Some? && r.server.clientKey == s.clientKey && r.server.ip == s.ip
            && forall k :: 0 <= k < |r.tun| ==> Admissible(cfg, s.ip.value, r.tun[k])
  {
    hide ServerData, OpenWire, SealedWire, Admissible;
    var (k, o) := OpenWire(s.keys.value, w);
    if o.Opened? {
      DataExact(cfg, s.(keys := Some(k)), o.frame.payload);
    }
  }

  lemma OutsideTook(cfg: ServerConfig, x: World, r: ServerStep)
    requires Inv(cfg, x) && x.session.keys.None?
    requires r.server.keys.None? && r.server.ip.None? && !r.server.rekeying && r.tun == []
    requires forall k :: 0 <= k < |r.sends| ==> r.sends[k].Raw?
    ensures Inv(cfg, Took(x, r))
  {
  }

  /** The join: an allowed key and an address from the pool, followed at once by the assignment. */
  lemma JoinTook(cfg: ServerConfig, x: World, r: ServerStep)
    requires Inv(cfg, x) && x.session.keys.None?
    requires r.server.keys.Some? && r.server.clientKey.Some? && r.server.ip.Some? && r.tun == []
    requires Allowed(x.peers, r.server.clientKey.value)
    requires r.sends != [] ==> Assigns(cfg, JoinMark(x.session, r, x.peers)[0], r.sends[0])
    ensures Inv(cfg, Took(x, r))
  {
    hide Admissible, Assigns;
    var y, j := Took(x, r), |x.trace|;
    assert y.trace == x.trace + JoinMark(x.session, r, x.peers) + SentMarks(r.sends);
    assert y.trace[..j] == x.trace && y.trace[j + 1..] == SentMarks(r.sends);
    if r.sends != [] {
      assert y.trace[j + 1] == Sent(r.sends[0]);
    }
    assert Settled(cfg, y.trace, j, r.server.clientKey.value, r.server.ip.value);
  }

  /** The step that joins: on the handshake's keys, with the assignment as the first and only frame sealed. */
  lemma JoinEffect(cfg: ServerConfig, x: World, i: Input)
    requires x.session.keys.None? && x.session.ip.None? && !x.session.rekeying && i.Datagram?
    requires Handle(cfg, x.session, x.peers, i).server.keys.Some?
    ensures var r := Handle(cfg, x.session, x.peers, i);
            && r.tun == [] && x.session.hs.Some? && r.server.clientKey.Some? && r.server.ip.Some?
            && Allowed(x.peers, r.server.clientKey.value)
            && r.server.keys.value == NewKeys(false, x.session.hs.value).(sendSeq := 1)
            && r.server.rekeyHs == x.session.rekeyHs && r.server.hs == None
            && |r.sends| <= 1
            && (r.sends != [] ==> Assigns(cfg, JoinMark(x.session, r, x.peers)[0], r.sends[0]))
  {
    hide SealedWire, Carried, Offered, AssignPayload;
    var r := Handle(cfg, x.session, x.peers, i);
    CarriedSealed(NewKeys(false, x.session.hs.value),
                  Message(i.d.nonce, x.session.tag, MSG_ASSIGN,
                          AssignPayload(Assignment(cfg.prefix, r.server.ip.value, cfg.gw)), i.d.padding));
  }

  lemma HandshakeKeeps(cfg: ServerConfig, x: World, i: Input)
    requires Inv(cfg, x) && x.session.keys.None? && i.Datagram?
    ensures Inv(cfg, Took(x, Handle(cfg, x.session, x.peers, i)))
  {
    hide SealedWire, Took, Inv, AssignPayload, Assigns;
    var r := Handle(cfg, x.session, x.peers, i);
    NoAddressYet(cfg, x);
    if r.server.keys.None? {
      OutsideTook(cfg, x, r);
    } else {
      JoinEffect(cfg, x, i);
      JoinTook(cfg, x, r);
    }
  }

  lemma NoAddressYet(cfg: ServerConfig, x: World)
    requires Inv(cfg, x)
    ensures x.session.keys.None? <==> x.session.ip.None?
    ensures x.session.keys.None? ==> !x.session.rekeying
  {
  }

  lemma StepKeeps(cfg: ServerConfig, x: World, i: Input)
    requires Inv(cfg, x)
    ensures Inv(cfg, Step(cfg, x, i))
  {
    hide SealedWire, OpenWire, Took, Handshake1, Handshake3, ServerReceive, Admissible;
    if x.over == i.Finish? {
      match i
      case Datagram(w, _, _, _, d) =>
        if x.session.keys.Some? {
          ReceiveEffect(cfg, x.session, w, d);
          InsideTook(cfg, x, ServerReceive(cfg, x.session, w, d));
        } else {
          HandshakeKeeps(cfg, x, i);
        }
      case Reply(packet, d) =>
        if x.session.keys.Some? {
          InsideTook(cfg, x, ServerPacket(x.session, packet, d));
        } else {
          OutsideTook(cfg, x, ServerPacket(x.session, packet, d));
        }
      case Decoy(payload, d) =>
        if x.session.keys.Some? && !x.session.rekeying {
          InsideTook(cfg, x, ServerSend(x.session, MSG_DECOY, payload, d));
        }
      case Tick =>
      case Leave(d) =>
        if x.session.keys.Some? {
          InsideTook(cfg, x, ServerSend(x.session, MSG_CLOSE, [], d).(fatal := true));
        }
      case Finish(d) =>
        if x.session.keys.Some? {
          InsideTook(cfg, x, ServerSend(x.session, MSG_CLOSE, [], d).(fatal := true));
        }
      case SetPeers(peers) =>
    }
  }

  lemma {:induction false} RunKeeps(cfg: ServerConfig, x: World, ins: seq<Input>)
    requires Inv(cfg, x)
    ensures Inv(cfg, Run(cfg, x, ins))
  {
    hide Inv, Step;
    if ins != [] {
      RunKeeps(cfg, x, ins[..|ins| - 1]);
      StepKeeps(cfg, Run(cfg, x, ins[..|ins| - 1]), ins[|ins| - 1]);
    }
  }

  /**
   * Over every run, with peer lists changing at any time: a packet is written to the TUN only after
   * the session joined, once, with a key the list then in force allowed and an address the manager
   * gave it, and the packet's source is that address and its length within the MTU.
   */
  lemma OnlyAdmittedTraffic(cfg: ServerConfig, peers: set<Point>, ins: seq<Input>, i: nat) returns (j: nat)
    requires i < |Run(cfg, Start(peers), ins).trace| && Run(cfg, Start(peers), ins).trace[i].Wrote?
    ensures var trace := Run(cfg, Start(peers), ins).trace;
            && j < i && trace[j].Joined?
            && Allowed(trace[j].peers, trace[j].key)
            && Admissible(cfg, trace[j].ip, trace[i].packet)
            && forall k :: 0 <= k < |trace| && trace[k].Joined? ==> k == j
  {
    hide Run, Step, Admissible;
    var x := Run(cfg, Start(peers), ins);
    RunKeeps(cfg, Start(peers), ins);
    var t := x.trace;
    assert x.session.keys.Some?;
    j :| Settled(cfg, t, j, x.session.clientKey.value, x.session.ip.value);
    forall k | 0 <= k < |t| && k != j
      ensures !t[k].Joined? && (k < j ==> !t[k].Wrote?)
      ensures k > j && t[k].Wrote? ==> Admissible(cfg, x.session.ip.value, t[k].packet)
    {
      if k < j {
        assert t[k] == t[..j][k];
      } else {
        assert t[k] == t[j + 1..][k - (j + 1)];
      }
    }
  }

  /**
   * Over every run: no AEAD frame leaves before the session has joined; and if the Send of the
   * assignment succeeded, the first one that leaves is the assignment, numbered 0, under the keys
   * of the handshake the session joined with.
   */
  lemma FirstFrameAssigns(cfg: ServerConfig, peers: set<Point>, ins: seq<Input>, i: nat) returns (j: nat)
    requires var trace := Run(cfg, Start(peers), ins).trace; i < |trace| && trace[i].Sent? && trace[i].w.Box?
    ensures var trace := Run(cfg, Start(peers), ins).trace;
            j < i && trace[j].Joined? && ToldNext(cfg, trace, j) && Outside(trace[..j])
  {
    hide Run, Step, Admissible, ToldNext;
    var x := Run(cfg, Start(peers), ins);
    RunKeeps(cfg, Start(peers), ins);
    var t := x.trace;
    j :| Settled(cfg, t, j, x.session.clientKey.value, x.session.ip.value);
    assert forall k :: 0 <= k < j ==> t[k] == t[..j][k];
  }

  // ---- Number 0 ----

  /** The ephemeral keys that the inputs draw. */
  function Drawn(ins: seq<Input>): set<Point> {
    set i | 0 <= i < |ins| && ins[i].Datagram? :: ins[i].d.ephemeral
  }

  /** No ephemeral key is drawn twice, and no key seals 2^32 frames. */
  ghost predicate Ordinary(cfg: ServerConfig, peers: set<Point>, ins: seq<Input>) {
    && (forall i, k :: 0 <= i < k < |ins| && ins[i].Datagram? && ins[k].Datagram? ==>
        ins[i].d.ephemeral != ins[k].d.ephemeral)
    && (forall i :: 0 <= i < |ins| ==> Roomy(Run(cfg, Start(peers), ins[..i])))
  }

  predicate Roomy(x: World) {
    x.session.keys.Some? ==> x.session.keys.value.sendSeq < TWO32
  }

  /** Of the frames sealed under the keys of the join at j, only the assignment that follows it is numbered 0. */
  predicate ZeroNext(trace: seq<Mark>, j: nat, i: nat)
    requires j < |trace| && trace[j].Joined? && i < |trace|
  {
    trace[i].Sent? && trace[i].w.Box? && trace[i].w.key == Key(trace[j].pair, false) && Carried(trace[i].w).num == 0
    ==> trace[j].told && i == j + 1
  }

  /** The session has left the keys of the join m behind, or numbers its next frame 1 or more. */
  predicate Past(s: Server, m: Mark, drawn: set<Point>)
    requires m.Joined? && s.keys.Some?
  {
    && m.pair.server in drawn && !s.keys.value.isClient
    && (s.keys.value.pair == m.pair ==> s.keys.value.sendSeq >= 1)
    && (s.keys.value.pair != m.pair ==> s.keys.value.pair.server != m.pair.server)
    && (s.rekeyHs.Some? ==> s.rekeyHs.value.server != m.pair.server)
  }

  ghost predicate Numbered(x: World, drawn: set<Point>) {
    if x.session.keys.None? then
      && x.session.rekeyHs.None? && (x.session.hs.Some? ==> x.session.hs.value.server in drawn)
      && (forall i :: 0 <= i < |x.trace| ==> !x.trace[i].Joined?)
    else
      forall j :: 0 <= j < |x.trace| && x.trace[j].Joined? ==>
        && Past(x.session, x.trace[j], drawn)
        && forall i :: 0 <= i < |x.trace| ==> ZeroNext(x.trace, j, i)
  }

  /** What a step of a session with keys seals, and what becomes of its keys. */
  predicate Seals(s: Server, r: ServerStep, d: Draw)
    requires s.keys.Some?
  {
    var k := s.keys.value;
    && r.server.keys.Some?
    && (forall i :: 0 <= i < |r.sends| ==>
          r.sends[i].Box? && r.sends[i].key == k.SendKey() && Carried(r.sends[i]).num == k.sendSeq % TWO32)
    && (|| (r.server.keys.value.SendKey() == k.SendKey() && r.server.keys.value.isClient == k.isClient
            && (r.server.keys.value.sendSeq == k.sendSeq || r.server.keys.value.sendSeq == AfterSeal(k).sendSeq))
        || (s.rekeyHs.Some? && r.server.keys.value == NewKeys(false, s.rekeyHs.value)))
    && (r.server.rekeyHs.None? || r.server.rekeyHs == s.rekeyHs || r.server.rekeyHs.value.server == d.ephemeral)
  }

  lemma SendSeals(s: Server, typ: Byte, pt: Bytes, d: Draw)
    requires s.keys.Some?
    ensures Seals(s, ServerSend(s, typ, pt, d), d)
    ensures var s' := ServerSend(s, typ, pt, d).server;
            s'.rekeyHs == s.rekeyHs && (s'.keys == s.keys || s'.keys == Some(AfterSeal(s.keys.value)))
  {
    hide SealedWire, Carried;
    SealedHeader(s.keys.value, Message(d.nonce, s.tag, typ, pt, d.padding));
  }

  lemma DispatchSeals(cfg: ServerConfig, s: Server, f: Frame, d: Draw)
    requires s.keys.Some?
    ensures Seals(s, ServerDispatch(cfg, s, f, d), d)
  {
    hide ServerSend, Carried, Parse;
    if f.typ == MSG_KEEPALIVE {
      SendSeals(s, MSG_KEEPALIVE, f.payload, d);
    } else if f.typ == MSG_REKEY1 && cfg.noise.read1(f.payload).Some? {
      var p := Pair(cfg.noise.read1(f.payload).value.0, d.ephemeral);
      SendSeals(s.(rekeyHs := Some(p), rekeying := true), MSG_REKEY2, cfg.noise.write2(p.client, p.server), d);
    }
  }

  lemma ReceiveSeals(cfg: ServerConfig, s: Server, w: Wire, d: Draw)
    requires s.keys.Some?
    ensures Seals(s, ServerReceive(cfg, s, w, d), d)
  {
    hide ServerDispatch, Carried, OpenWire, Offered;
    OpenStep(s.keys.value, w);
    var (k, o) := OpenWire(s.keys.value, w);
    if o.Opened? {
      DispatchSeals(cfg, s.(keys := Some(k)), o.frame, d);
    }
  }

  lemma SealsKeeps(x: World, r: ServerStep, d: Draw, drawn: set<Point>, more: set<Point>)
    requires Numbered(x, drawn) && Roomy(x) && x.session.keys.Some? && Seals(x.session, r, d)
    requires drawn <= more
    requires r.server.rekeyHs.None? || r.server.rekeyHs == x.session.rekeyHs || d.ephemeral !in drawn
    ensures Numbered(Took(x, r), more)
  {
    hide Carried, Assigns;
    var y := Took(x, r);
    assert y.trace == x.trace + SentMarks(r.sends) + WroteMarks(r.tun);
    forall j | 0 <= j < |y.trace| && y.trace[j].Joined?
      ensures Past(y.session, y.trace[j], more)
      ensures forall i :: 0 <= i < |y.trace| ==> ZeroNext(y.trace, j, i)
    {
      assert y.trace[j] == x.trace[j];
      forall i | 0 <= i < |y.trace|
        ensures ZeroNext(y.trace, j, i)
      {
        if i < |x.trace| {
          assert ZeroNext(x.trace, j, i) && y.trace[i] == x.trace[i];
        }
      }
    }
  }

  lemma StepNumbers(cfg: ServerConfig, x: World, i: Input, drawn: set<Point>)
    requires Inv(cfg, x) && Numbered(x, drawn) && Roomy(x)
    requires i.Datagram? ==> i.d.ephemeral !in drawn
    ensures Numbered(Step(cfg, x, i), drawn + if i.Datagram? then {i.d.ephemeral} else {})
  {
    hide Inv, Seals, Took, Numbered, Handshake1, Handshake3, ServerReceive, ServerSend, Roomy;
    var more := drawn + if i.Datagram? then {i.d.ephemeral} else {};
    if x.over != i.Finish? {
      NumbersMore(x, drawn, more);
    } else {
      match i
      case Datagram(w, _, _, _, d) =>
        if x.session.keys.Some? {
          ReceiveSeals(cfg, x.session, w, d);
          SealsKeeps(x, ServerReceive(cfg, x.session, w, d), d, drawn, more);
        } else {
          HandshakeNumbers(cfg, x, i, drawn);
        }
      case Reply(packet, d) =>
        if x.session.keys.Some? && x.session.ip.Some? {
          SentNumbers(x, MSG_DATA, packet, d, drawn, ServerSend(x.session, MSG_DATA, packet, d));
        } else {
          TookNothing(x);
          NumbersMore(x, drawn, more);
        }
      case Decoy(payload, d) =>
        NumbersMore(x, drawn, more);
        if x.session.keys.Some? && !x.session.rekeying {
          SentNumbers(x, MSG_DECOY, payload, d, drawn, ServerSend(x.session, MSG_DECOY, payload, d));
        }
      case Tick => TickNumbers(x, drawn);
      case Leave(d) =>
        if x.session.keys.Some? {
          SentNumbers(x, MSG_CLOSE, [], d, drawn, ServerSend(x.session, MSG_CLOSE, [], d).(fatal := true));
        } else {
          OverNumbers(x, drawn);
        }
      case Finish(d) =>
        NumbersMore(x, drawn, more);
        if x.session.keys.Some? {
          SentNumbers(x, MSG_CLOSE, [], d, drawn, ServerSend(x.session, MSG_CLOSE, [], d).(fatal := true));
        }
      case SetPeers(peers) => PeersNumbers(x, peers, drawn);
    }
  }

  lemma TookNothing(x: World)
    requires !x.over
    ensures Took(x, Idle(x.session)) == x
  {
    assert x.trace + [] == x.trace;
  }

  lemma NumbersMore(x: World, drawn: set<Point>, more: set<Point>)
    requires Numbered(x, drawn) && drawn <= more
    ensures Numbered(x, more)
  {
    hide ZeroNext;
  }

  lemma TickNumbers(x: World, drawn: set<Point>)
    requires Numbered(x, drawn)
    ensures Numbered(x.(session := RekeyTimeout(x.session)), drawn + {})
  {
    hide ZeroNext;
  }

  lemma PeersNumbers(x: World, peers: set<Point>, drawn: set<Point>)
    requires Numbered(x, drawn)
    ensures Numbered(x.(peers := peers), drawn + {})
  {
    hide ZeroNext;
  }

  lemma OverNumbers(x: World, drawn: set<Point>)
    requires Numbered(x, drawn)
    ensures Numbered(x.(over := true), drawn + {})
  {
    hide ZeroNext;
  }

  lemma SentNumbers(x: World, typ: Byte, pt: Bytes, d: Draw, drawn: set<Point>, r: ServerStep)
    requires Numbered(x, drawn) && Roomy(x) && x.session.keys.Some?
    requires r == ServerSend(x.session, typ, pt, d) || r == ServerSend(x.session, typ, pt, d).(fatal := true)
    ensures Numbered(Took(x, r), drawn + {})
  {
    hide Numbered, Took, Roomy, ServerSend, Carried;
    SendSeals(x.session, typ, pt, d);
    SealsKeeps(x, r, d, drawn, drawn + {});
  }

  lemma HandshakeNumbers(cfg: ServerConfig, x: World, i: Input, drawn: set<Point>)
    requires Inv(cfg, x) && Numbered(x, drawn) && x.session.keys.None? && i.Datagram?
    ensures Numbered(Took(x, Handle(cfg, x.session, x.peers, i)), drawn + {i.d.ephemeral})
  {
    hide Inv, Assigns, Carried, AssignPayload, SealedWire;
    var r := Handle(cfg, x.session, x.peers, i);
    var y := Took(x, r);
    NoAddressYet(cfg, x);
    OutsideYet(cfg, x);
    if r.server.keys.Some? {
      JoinEffect(cfg, x, i);
      hide Handle;
      assert y.trace == x.trace + JoinMark(x.session, r, x.peers) + SentMarks(r.sends);
    } else {
      assert JoinMark(x.session, r, x.peers) == [];
    }
  }

  lemma OutsideYet(cfg: ServerConfig, x: World)
    requires Inv(cfg, x) && x.session.keys.None?
    ensures Outside(x.trace)
  {
  }

  lemma DrawnLast(ins: seq<Input>)
    requires ins != []
    ensures var n := |ins| - 1; Drawn(ins) == Drawn(ins[..n]) + if ins[n].Datagram? then {ins[n].d.ephemeral} else {}
  {
    var n := |ins| - 1;
    var before := ins[..n];
    forall e | e in Drawn(ins)
      ensures e in Drawn(before) + if ins[n].Datagram? then {ins[n].d.ephemeral} else {}
    {
      var i :| 0 <= i < |ins| && ins[i].Datagram? && ins[i].d.ephemeral == e;
      if i < n {
        assert before[i] == ins[i];
      }
    }
    forall e | e in Drawn(before)
      ensures e in Drawn(ins)
    {
      var i :| 0 <= i < n && before[i].Datagram? && before[i].d.ephemeral == e;
      assert ins[i] == before[i];
    }
  }

  lemma {:induction false} RunNumbers(cfg: ServerConfig, peers: set<Point>, ins: seq<Input>)
    requires Ordinary(cfg, peers, ins)
    ensures Inv(cfg, Run(cfg, Start(peers), ins)) && Numbered(Run(cfg, Start(peers), ins), Drawn(ins))
  {
    hide Ordinary, Drawn, Step;
    if ins == [] {
      assert Drawn(ins) == {} by { DrawnNone(); }
    } else {
      hide Inv, Numbered, Roomy, Start;
      var n := |ins| - 1;
      OrdinaryLast(cfg, peers, ins);
      RunNumbers(cfg, peers, ins[..n]);
      var x := Run(cfg, Start(peers), ins[..n]);
      StepKeeps(cfg, x, ins[n]);
      StepNumbers(cfg, x, ins[n], Drawn(ins[..n]));
      DrawnLast(ins);
    }
  }

  lemma DrawnNone()
    ensures Drawn([]) == {}
  {
  }

  lemma OrdinaryLast(cfg: ServerConfig, peers: set<Point>, ins: seq<Input>)
    requires ins != [] && Ordinary(cfg, peers, ins)
    ensures var n := |ins| - 1;
            && Ordinary(cfg, peers, ins[..n]) && Roomy(Run(cfg, Start(peers), ins[..n]))
            && (ins[n].Datagram? ==> ins[n].d.ephemeral !in Drawn(ins[..n]))
  {
    hide Run, Roomy, Start;
    var n := |ins| - 1;
    forall i | 0 <= i < n
      ensures Roomy(Run(cfg, Start(peers), ins[..n][..i]))
    {
      assert ins[..n][..i] == ins[..i];
    }
  }

  /**
   * A client that opens a frame numbered 0 under its first keys has its assignment: while ephemeral
   * keys are fresh and the counter has not wrapped, nothing else leaves the server under that number,
   * and if the Send of the assignment failed nothing does.
   */
  lemma ZeroOnlyAssigns(cfg: ServerConfig, peers: set<Point>, ins: seq<Input>, j: nat, i: nat)
    requires Ordinary(cfg, peers, ins)
    requires var trace := Run(cfg, Start(peers), ins).trace;
             j < |trace| && trace[j].Joined? && i < |trace| && trace[i].Sent? && trace[i].w.Box?
    requires var trace := Run(cfg, Start(peers), ins).trace;
             trace[i].w.key == Key(trace[j].pair, false) && Carried(trace[i].w).num == 0
    ensures var trace := Run(cfg, Start(peers), ins).trace;
            trace[j].told && i == j + 1 && Assigns(cfg, trace[j], trace[i].w)
  {
    hide Run, Assigns, Carried, Inv;
    RunNumbers(cfg, peers, ins);
    assert ZeroNext(Run(cfg, Start(peers), ins).trace, j, i);
    var k := FirstFrameAssigns(cfg, peers, ins, i);
    JoinedOnce(cfg, peers, ins, j, k);
  }

  lemma JoinedOnce(cfg: ServerConfig, peers: set<Point>, ins: seq<Input>, j: nat, k: nat)
    requires var t := Run(cfg, Start(peers), ins).trace; j < |t| && t[j].Joined? && k < |t| && t[k].Joined?
    ensures j == k
  {
    hide Run, Admissible, ToldNext;
    RunKeeps(cfg, Start(peers), ins);
    var x := Run(cfg, Start(peers), ins);
    var t := x.trace;
    var o: nat :| Settled(cfg, t, o, x.session.clientKey.value, x.session.ip.value);
    assert forall i :: 0 <= i < o ==> t[i] == t[..o][i];
    assert forall i :: o < i < |t| ==> t[i] == t[o + 1..][i - (o + 1)];
  }

  /** A session joins only on message 3 of its own handshake, made by the holder of the key it joins with. */
  lemma JoinAuthenticated(cfg: ServerConfig, x: World, i: Input)
    requires Ideal(cfg.noise) && x.session.keys.None? && i.Datagram?
    requires Handle(cfg, x.session, x.peers, i).server.keys.Some?
    ensures var s := Handle(cfg, x.session, x.peers, i).server;
            && x.session.hs.Some? && s.clientKey.Some? && s.ip.Some? && i.address == s.ip
            && i.w == Raw(cfg.noise.write3(x.session.hs.value.client, x.session.hs.value.server, s.clientKey.value))
            && s.keys.value.pair == x.session.hs.value
  {
    hide SealedWire, AssignPayload;
  }

  /**
   * Rekeying never changes who the session belongs to: the key pair changes only on a frame that
   * authenticates under the current one and carries message 3 of the pending handshake, made by the
   * client the session joined with.
   */
  lemma RekeyAuthenticated(cfg: ServerConfig, s: Server, w: Wire, d: Draw)
    requires Ideal(cfg.noise) && s.keys.Some? && s.clientKey.Some?
    requires ServerReceive(cfg, s, w, d).server.keys != None
    requires ServerReceive(cfg, s, w, d).server.keys.value.pair != s.keys.value.pair
    ensures s.rekeying && s.rekeyHs.Some? && Authentic(s.keys.value, w)
    ensures Carried(w).tag == s.tag && Carried(w).typ == MSG_REKEY3
    ensures Carried(w).payload
         == cfg.noise.write3(s.rekeyHs.value.client, s.rekeyHs.value.server, s.clientKey.value)
    ensures ServerReceive(cfg, s, w, d).server.keys == Some(NewKeys(false, s.rekeyHs.value))
  {
    hide SealedWire, ParseInner, OpenWire, Parse;
    OpenStep(s.keys.value, w);
  }

  // ---- From the first message to the first packet ----

  /** A session that has not taken up a handshake. */
  predicate Waiting(x: World) {
    !x.over && x.session.keys.None? && x.session.hs.None?
  }

  /**
   * Message 1, bare or with a cookie, that the door lets in: the one datagram that leaves is a message
   * 2 from which the sender of message 1 learns the server's ephemeral key.
   */
  lemma FirstAnswered(cfg: ServerConfig, x: World, i: Input, e: Point, tag: Tag, cookie: Bytes)
    requires Ideal(cfg.noise) && Waiting(x) && i.Datagram? && i.d.sendOk
    requires i.w == Raw(cfg.noise.write1(e, tag) + cookie)
    requires (cookie == [] && i.bare == Admit) || (|cookie| == COOKIE_LEN && i.cookied == Admit)
    ensures var y := Step(cfg, x, i);
            && y.session == x.session.(tag := tag, hs := Some(Pair(e, i.d.ephemeral)))
            && !y.over && y.peers == x.peers && |y.trace| == |x.trace| + 1
            && y.trace == x.trace + [y.trace[|x.trace|]]
            && var mark := y.trace[|x.trace|];
               mark.Sent? && mark.w.Raw? && cfg.noise.read2(e, mark.w.bytes) == Some(i.d.ephemeral)
  {
    var m := cfg.noise.write1(e, tag);
    assert |m| == 52 && (m + cookie)[..52] == m && cfg.noise.read1(m) == Some((e, tag));
    var m2 := cfg.noise.write2(e, i.d.ephemeral);
    assert cfg.noise.read2(e, m2) == Some(i.d.ephemeral);
    assert Step(cfg, x, i).trace == x.trace + [Sent(Raw(m2))];
  }

  /** A message 1 that the door does not let in gets the cookie and nothing else, and leaves the session as it was. */
  lemma FirstChallenged(cfg: ServerConfig, x: World, i: Input, cookie: Bytes)
    requires Waiting(x) && i.Datagram? && i.d.sendOk
    requires (Len(i.w) == 52 && i.bare == Challenge(cookie)) || (Len(i.w) == 84 && i.cookied == Challenge(cookie))
    ensures Step(cfg, x, i) == x.(trace := x.trace + [Sent(Raw(cookie))])
  {
    assert Step(cfg, x, i).trace == x.trace + [Sent(Raw(cookie))];
  }

  /** A session whose message 2 has left. */
  predicate Handshaken(x: World, p: Pair) {
    !x.over && x.session.keys.None? && x.session.hs == Some(p) && !x.session.rekeying
  }

  /**
   * Message 3 of that handshake: the session joins, with its key and the handshake's keys, exactly if
   * the list is empty or the key is on it, and there is an address. Otherwise it is over, and nothing
   * leaves it.
   */
  lemma ThirdJoinsIff(cfg: ServerConfig, x: World, i: Input, p: Pair, key: Point)
    requires Ideal(cfg.noise) && Handshaken(x, p) && i.Datagram?
    requires i.w == Raw(cfg.noise.write3(p.client, p.server, key))
    ensures var y := Step(cfg, x, i);
            if (x.peers == {} || key in x.peers) && i.address.Some? then
              && !y.over && y.session.keys == Some(NewKeys(false, p).(sendSeq := 1))
              && y.session.clientKey == Some(key) && y.session.ip == i.address && y.session.tag == x.session.tag
              && y.trace[..|x.trace|] == x.trace && |y.trace| == |x.trace| + (if i.d.sendOk then 2 else 1)
              && y.trace[|x.trace|] == Joined(key, i.address.value, x.peers, p, x.session.tag, i.d.sendOk)
              && (i.d.sendOk ==> var mark := y.trace[|x.trace| + 1];
                                 mark.Sent? && Assigns(cfg, y.trace[|x.trace|], mark.w))
            else
              && y.over && y.session == x.session.(clientKey := Some(key)) && y.trace == x.trace
  {
    hide SealedWire, Carried, AssignPayload;
    assert cfg.noise.read3(p.client, p.server, i.w.bytes) == Some(key);
    var r, y := Handle(cfg, x.session, x.peers, i), Step(cfg, x, i);
    if r.server.keys.Some? {
      var m := Message(i.d.nonce, x.session.tag, MSG_ASSIGN,
                       AssignPayload(Assignment(cfg.prefix, i.address.value, cfg.gw)), i.d.padding);
      CarriedSealed(NewKeys(false, p), m);
      assert y.trace == x.trace + JoinMark(x.session, r, x.peers) + SentMarks(r.sends);
    } else {
      assert y.trace == x.trace;
    }
  }

  /** Message 3 of another handshake, or anything else, ends the session. */
  lemma WrongThirdEnds(cfg: ServerConfig, x: World, i: Input, p: Pair)
    requires Ideal(cfg.noise) && Handshaken(x, p) && i.Datagram?
    requires forall key: Point :: i.w != Raw(cfg.noise.write3(p.client, p.server, key))
    ensures Step(cfg, x, i) == x.(over := true)
  {
    ThirdRead(cfg, i.w, p);
    assert x.trace + [] == x.trace;
  }

  lemma ThirdRead(cfg: ServerConfig, w: Wire, p: Pair)
    requires Ideal(cfg.noise)
    ensures w.Raw? && cfg.noise.read3(p.client, p.server, w.bytes).Some? ==>
              exists key: Point :: w == Raw(cfg.noise.write3(p.client, p.server, key))
  {
    if w.Raw? && cfg.noise.read3(p.client, p.server, w.bytes).Some? {
      var key := cfg.noise.read3(p.client, p.server, w.bytes).value;
      assert w == Raw(cfg.noise.write3(p.client, p.server, key));
    }
  }

  /**
   * A whole handshake from the start: a client with ephemeral key e that the door lets in, and that
   * answers what it is sent, joins under its own key if the list and the pool allow it.
   */
  lemma HandshakeJoins(cfg: ServerConfig, peers: set<Point>, first: Input, third: Input, e: Point, tag: Tag, key: Point)
    requires Ideal(cfg.noise) && first.Datagram? && third.Datagram? && first.d.sendOk && third.d.sendOk
    requires first.w == Raw(cfg.noise.write1(e, tag)) && first.bare == Admit
    requires third.w == Raw(cfg.noise.write3(e, first.d.ephemeral, key)) && third.address.Some?
    requires peers == {} || key in peers
    ensures var x := Run(cfg, Start(peers), [first, third]);
            && !x.over && |x.trace| == 3 && x.trace[0].Sent? && x.trace[0].w.Raw?
            && cfg.noise.read2(e, x.trace[0].w.bytes) == Some(first.d.ephemeral)
            && x.trace[1] == Joined(key, third.address.value, peers, Pair(e, first.d.ephemeral), tag, true)
            && x.trace[2].Sent? && Assigns(cfg, x.trace[1], x.trace[2].w)
  {
    hide Step, Assigns;
    var x0 := Start(peers);
    assert cfg.noise.write1(e, tag) + [] == cfg.noise.write1(e, tag);
    FirstAnswered(cfg, x0, first, e, tag, []);
    ThirdJoinsIff(cfg, Step(cfg, x0, first), third, Pair(e, first.d.ephemeral), key);
    assert [first, third][..1] == [first] && [first][..0] == [];
    assert Run(cfg, x0, [first]) == Step(cfg, x0, first);
  }

  /** The datagram opens under the session's keys as a frame of that type, with the session's tag. */
  predicate Opens(x: World, w: Wire, typ: Byte)
    requires x.session.keys.Some?
  {
    var r := OpenWire(x.session.keys.value, w).1;
    r.Opened? && r.frame.tag == x.session.tag && r.frame.typ == typ
  }

  /** As data, and its payload is a well-formed IPv4 packet within the MTU from the address ip. */
  predicate OpensAsPacket(cfg: ServerConfig, x: World, w: Wire, ip: nat)
    requires x.session.keys.Some?
  {
    && Opens(x, w, 0x04)
    && var packet := OpenWire(x.session.keys.value, w).1.frame.payload;
       WellFormed(packet) && Source(packet) == ip && |packet| <= cfg.mtu
  }

  /**
   * In every run, a datagram writes its payload to the TUN if and only if it is such a packet from the
   * address the session joined with; and it ends the session if and only if it opens as a close.
   */
  lemma WrittenIff(cfg: ServerConfig, peers: set<Point>, ins: seq<Input>, i: Input)
    requires i.Datagram?
    requires var x := Run(cfg, Start(peers), ins); !x.over && x.session.keys.Some?
    ensures var x := Run(cfg, Start(peers), ins);
            var y, n := Step(cfg, x, i), |x.trace|;
            && x.session.ip.Some? && |y.trace| >= n
            && (if OpensAsPacket(cfg, x, i.w, x.session.ip.value)
                then y.trace == x.trace + [Wrote(OpenWire(x.session.keys.value, i.w).1.frame.payload)]
                else forall k :: n <= k < |y.trace| ==> y.trace[k].Sent?)
            && (y.over <==> Opens(x, i.w, 0x06))
  {
    hide Run, Settled, WellFormed, Source, OpenWire, SealedWire, Parse;
    RunKeeps(cfg, Start(peers), ins);
    var x := Run(cfg, Start(peers), ins);
    var (k, o) := OpenWire(x.session.keys.value, i.w);
    var r := ServerReceive(cfg, x.session, i.w, i.d);
    assert Step(cfg, x, i).trace == x.trace + SentMarks(r.sends) + WroteMarks(r.tun);
    if o.Opened? {
      hide ServerData;
      DataExact(cfg, x.session.(keys := Some(k)), o.frame.payload);
    }
  }

  /** The session sealed one frame of that code, which left if Send succeeded, and did nothing else. */
  predicate SentOne(x: World, y: World, typ: Byte, payload: Bytes, d: Draw)
    requires x.session.keys.Some?
  {
    && y.session.keys.Some? && y.session == x.session.(keys := y.session.keys) && y.peers == x.peers
    && |y.trace| == |x.trace| + (if d.sendOk then 1 else 0) && x.trace <= y.trace
    && (d.sendOk ==> y.trace[|x.trace|].Sent?)
    && SealedOne(x.session.keys.value, y.session.keys.value, if d.sendOk then [y.trace[|x.trace|].w] else [],
                 x.session.tag, typ, payload, d)
  }

  /**
   * What a session that has joined does of its own accord. A packet for its client leaves as code 4, a
   * decoy as code 0x0B and the last close as code 6, unless a rekey is on, when nothing leaves; a tick
   * that finds a rekey too old drops it; and only leaving ends the session.
   */
  lemma OwnAccord(cfg: ServerConfig, x: World, i: Input)
    requires !x.over && x.session.keys.Some? && x.session.ip.Some? && !i.Datagram? && !i.Finish?
    requires i.Reply? ==> |i.packet| < TWO16
    requires i.Decoy? ==> |i.payload| < TWO16
    ensures var y := Step(cfg, x, i);
            && (y.over <==> i.Leave?)
            && match i
               case Reply(packet, d) => if x.session.rekeying then y == x else SentOne(x, y, 0x04, packet, d)
               case Decoy(payload, d) => if x.session.rekeying then y == x else SentOne(x, y, 0x0B, payload, d)
               case Leave(d) => if x.session.rekeying then y == x.(over := true) else SentOne(x, y, 0x06, [], d)
               case Tick => y == x.(session := x.session.(rekeying := false,
                                    rekeyHs := if x.session.rekeying then None else x.session.rekeyHs))
               case SetPeers(peers) => y == x.(peers := peers)
               case _ => true
  {
    hide SealedWire, Carried, EncryptSend, SealedOne;
    assert x.trace + [] == x.trace;
    match i
    case Reply(packet, d) => SendsOne(x, MSG_DATA, packet, d, Step(cfg, x, i));
    case Decoy(payload, d) => SendsOne(x, MSG_DECOY, payload, d, Step(cfg, x, i));
    case Leave(d) => SendsOne(x, MSG_CLOSE, [], d, Step(cfg, x, i));
    case _ =>
  }

  /** A session that is over seals one more close, unless a rekey was on, and does nothing else ever. */
  lemma Finishes(cfg: ServerConfig, x: World, i: Input)
    requires x.over && x.session.keys.Some?
    ensures var y := Step(cfg, x, i);
            && y.over
            && if i.Finish? && !x.session.rekeying then SentOne(x, y, 0x06, [], i.d) else y == x
  {
    hide SealedWire, Carried, EncryptSend, SealedOne;
    assert x.trace + [] == x.trace;
    if i.Finish? {
      SendsOne(x, MSG_CLOSE, [], i.d, Step(cfg, x, i));
    }
  }

  lemma SendsOne(x: World, typ: Byte, payload: Bytes, d: Draw, y: World)
    requires x.session.keys.Some? && |payload| < TWO16 && !IsRekey(typ)
    ensures var r := ServerSend(x.session, typ, payload, d);
            && (x.session.rekeying ==> r == Idle(x.session))
            && (!x.session.rekeying && (y == Took(x, r) || y == Took(x, r.(fatal := true))) ==>
                  SentOne(x, y, typ, payload, d))
  {
    hide SealedWire, Carried;
    if !x.session.rekeying {
      SealsOne(x.session.keys.value, x.session.tag, typ, payload, d);
      var r := ServerSend(x.session, typ, payload, d);
      assert Took(x, r).trace == x.trace + SentMarks(r.sends);
    }
  }
}
