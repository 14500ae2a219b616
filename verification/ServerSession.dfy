/**
 * The server's handlers for one client, mutating the session in place: `serverSession` in
 * internal/session/server.go.
 */
module ServerSessions {
  import opened Bytes
  import opened IPv4
  import opened Framing
  import opened NoiseXK
  import opened SessionKeys
  import opened Endpoints
  import opened CookieDoor
  import opened RegistrySpec
  import opened Managers
  import L = Limiter

  /** `reg` is the part of the session that the manager's indexes refer to. */
  class ServerSession {
    const cfg: ServerConfig
    const reg: Session
    var hs: Option<Pair>
    var tag: Tag
    var keys: Keys?
    var rekeying: bool
    var rekeyHs: Option<Pair>

    ghost function Footprint(): set<object>
      reads this, keys
    {
      if keys == null then {} else var k: Keys := keys; {k, k.replay, k.replay.bits, k.recvBuf}
    }

    ghost predicate Valid()
      reads this, keys, Footprint()
    {
      if keys == null then !rekeying else keys.Valid()
    }

    ghost function View(): Server
      requires Valid()
      reads this, keys, reg, Footprint()
    {
      Server(hs, reg.clientKey, reg.ip, tag, if keys == null then None else Some(keys.View()), rekeying, rekeyHs)
    }

    constructor (cfg: ServerConfig, reg: Session)
      ensures Valid() && this.cfg == cfg && this.reg == reg
      ensures View() == Server(None, reg.clientKey, reg.ip, [0, 0, 0, 0], None, false, None)
    {
      this.cfg := cfg;
      this.reg := reg;
      hs := None;
      tag := [0, 0, 0, 0];
      keys := null;
      rekeying := false;
      rekeyHs := None;
    }

    /** Replies, decoys, echoes and the close. What is sealed must fit the buffer. */
    method Send(typ: Byte, pt: Bytes, d: Draw) returns (sends: seq<Wire>)
      requires Valid() && InBuffer(ServerSend(View(), typ, pt, Sure(d)).sends)
      modifies Footprint()
      ensures Valid() && Footprint() == old(Footprint())
      ensures ServerStep(View(), sends, [], false) == ServerSend(old(View()), typ, pt, d)
    {
      hide Inner, ParseInner, InBuffer;
      if keys != null {
        EncryptSendInBuffer(View().keys.value, rekeying, tag, typ, pt, d);
      }
      if keys == null {
        return [];
      }
      if rekeying && !IsRekey(typ) {
        return [];
      }
      var w := keys.Seal(Message(d.nonce, tag, typ, pt, d.padding));
      return if d.sendOk then [w] else [];
    }

    /**
     * The first datagram: a malformed one ends the session, the door may answer with a cookie instead,
     * and only a message without a cookie is counted against its address.
     */
    method Handshake1(w: Wire, peer: Option<Peer>, rates: L.RateTable, c: L.Call, mac: Mac, d: Draw)
      returns (sends: seq<Wire>, fatal: bool)
      requires Valid() && keys == null && hs.None?
      modifies this`hs, this`tag, rates
      ensures Valid()
      ensures var was := old(rates.buckets);
              && ServerStep(View(), sends, [], fatal)
                 == Endpoints.Handshake1(cfg, old(View()), w, BareDoor(mac, was, peer, c),
                                         CookiedDoor(mac, peer, w, c), d)
              && rates.buckets == AfterKnock(was, w, peer, c)
    {
      if Len(w) != 52 && Len(w) != 52 + COOKIE_LEN {
        return [], true;
      }
      if peer.Some? {
        var ip, refused := peer.value.ip, true;
        if Len(w) == 52 {
          refused := rates.RequireCookie(peer.value.name, c);
        } else if w.Raw? {
          refused := !ValidCookie(mac, ip, w.bytes[52..], c.now);
        }
        if refused {
          return if d.sendOk then [Raw(mac(ip, Window(c.later)))] else [], false;
        }
      }
      if !w.Raw? {
        return [], true;
      }
      var m1 := cfg.noise.read1(w.bytes[..52]);
      if m1.None? || |m1.value.1| != 4 {
        return [], true;
      }
      tag := m1.value.1;
      var p := Pair(m1.value.0, d.ephemeral);
      hs := Some(p);
      return if d.sendOk then [Raw(cfg.noise.write2(p.client, p.server))] else [], false;
    }

    /** The key that message 3 proves, if it is one. */
    ghost function Learnt(w: Wire): Option<Point>
      requires hs.Some?
      reads this
    {
      if w.Raw? then cfg.noise.read3(hs.value.client, hs.value.server, w.bytes) else None
    }

    /** How the session answers message 3, given the manager's books. */
    ghost function Answer(w: Wire, allowed: Point -> bool, mgr: Manager, d: Draw): ServerStep
      requires Valid() && hs.Some? && mgr.Valid() && reg in mgr.live && reg.ip.None?
      reads this, keys, reg, Footprint(), mgr, mgr.pool, mgr.live
    {
      var key := Learnt(w);
      Endpoints.Handshake3(cfg, View(), w, allowed,
                           if key.Some? then AddressFor(mgr.Lim(), mgr.View(), reg, key.value) else None, d)
    }

    /** Message 3: the key is learnt, checked against the peer list, and the manager assigns an address. */
    method Handshake3(w: Wire, allowed: Point -> bool, mgr: Manager, d: Draw) returns (sends: seq<Wire>, fatal: bool)
      requires Valid() && keys == null && hs.Some?
      requires mgr.Valid() && reg in mgr.live && reg.ip.None?
      requires InBuffer(Answer(w, allowed, mgr, Sure(d)).sends)
      modifies this`hs, this`keys, mgr`byID, mgr`byIP, mgr`byStatic, mgr.pool, mgr.live
      ensures Valid() && mgr.Valid() && fresh(Footprint())
      ensures ServerStep(View(), sends, [], fatal) == old(Answer(w, allowed, mgr, d))
      ensures var st, key := old(mgr.View()), old(Learnt(w));
              mgr.View() == if key.None? then st
                            else if allowed(key.value) then AfterAdopt(mgr.Lim(), st, reg, key.value)
                            else AfterIdentify(st, reg, key.value)
    {
      hide SealedWire, Booked, AfterAdopt, AfterIdentify, AssignPayload, AddressFor, InBuffer;
      assert Handshaking(mgr.View(), reg);
      hide Infos;
      var p := hs.value;
      if !w.Raw? {
        return [], true;
      }
      var key := cfg.noise.read3(p.client, p.server, w.bytes);
      if key.None? {
        return [], true;
      }
      ghost var a := AddressFor(mgr.Lim(), mgr.View(), reg, key.value);
      if allowed(key.value) && a.Some? {
        EncryptSendInBuffer(NewKeys(false, p), rekeying, tag, MSG_ASSIGN,
                            AssignPayload(Assignment(cfg.prefix, a.value, cfg.gw)), d);
      }
      hide ServerSend, Fits;
      var ok := Register(key.value, allowed(key.value), mgr);
      if !ok {
        return [], true;
      }
      sends := Join(p, d);
      fatal := false;
    }

    /** The keys go in and the assignment goes out. */
    method Join(p: Pair, d: Draw) returns (sends: seq<Wire>)
      requires Valid() && reg.ip.Some? && keys == null
      requires Fits(d, AssignPayload(Assignment(cfg.prefix, reg.ip.value, cfg.gw)))
      modifies this`hs, this`keys
      ensures Valid() && fresh(Footprint())
      ensures ServerStep(View(), sends, [], false)
           == ServerSend(old(View()).(keys := Some(NewKeys(false, p)), hs := None), MSG_ASSIGN,
                         AssignPayload(Assignment(cfg.prefix, reg.ip.value, cfg.gw)), d)
    {
      hide SealedWire;
      var k := new Keys(false, p);
      keys := k;
      hs := None;
      EncryptSendInBuffer(View().keys.value, rekeying, tag, MSG_ASSIGN,
                          AssignPayload(Assignment(cfg.prefix, reg.ip.value, cfg.gw)), d);
      sends := Send(MSG_ASSIGN, AssignPayload(Assignment(cfg.prefix, reg.ip.value, cfg.gw)), d);
    }

    /** The books are brought up to date with the client's key and, if it is permitted, its address. */
    method Register(key: Point, permitted: bool, mgr: Manager) returns (ok: bool)
      requires mgr.Valid() && reg in mgr.live && reg.ip.None?
      modifies mgr`byID, mgr`byIP, mgr`byStatic, mgr.pool, mgr.live
      ensures mgr.Valid() && Handshaking(old(mgr.View()), reg)
      ensures mgr.View() == if permitted then AfterAdopt(mgr.Lim(), old(mgr.View()), reg, key)
                            else AfterIdentify(old(mgr.View()), reg, key)
      ensures reg.clientKey == Some(key) && ok == reg.ip.Some?
      ensures reg.ip == if permitted then AddressFor(mgr.Lim(), old(mgr.View()), reg, key) else None
    {
      hide Booked, AfterAdopt;
      ghost var st := mgr.View();
      Identify(mgr, key);
      if !permitted {
        return false;
      }
      AdoptIdentified(mgr.Lim(), st, reg, key);
      ok := mgr.Adopt(reg);
      assert mgr.View().live[reg].ip == reg.ip;
    }

    method Identify(mgr: Manager, key: Point)
      requires mgr.Valid() && reg in mgr.live && reg.ip.None?
      modifies reg`clientKey
      ensures mgr.Valid() && mgr.View() == AfterIdentify(old(mgr.View()), reg, key)
      ensures reg.clientKey == Some(key)
    {
      hide Booked;
      reg.clientKey := Some(key);
      assert Infos(mgr.live) == old(mgr.View()).live[reg := old(mgr.View()).live[reg].(key := Some(key))];
      IdentifyKeeps(mgr.Lim(), old(mgr.View()), reg, key);
    }

    method Rekey1(msg: Bytes, d: Draw) returns (sends: seq<Wire>)
      requires Valid() && InBuffer(Endpoints.Rekey1(cfg, View(), msg, Sure(d)).sends)
      modifies this`rekeying, this`rekeyHs, Footprint()
      ensures Valid() && Footprint() == old(Footprint())
      ensures ServerStep(View(), sends, [], false) == Endpoints.Rekey1(cfg, old(View()), msg, d)
    {
      hide SealedWire;
      if keys == null || rekeying {
        return [];
      }
      var m1 := cfg.noise.read1(msg);
      if m1.None? {
        return [];
      }
      var p := Pair(m1.value.0, d.ephemeral);
      var m2 := cfg.noise.write2(p.client, p.server);
      rekeyHs := Some(p);
      rekeying := true;
      sends := Send(MSG_REKEY2, m2, d);
    }

    method Rekey3(msg: Bytes)
      requires Valid()
      modifies this`keys, this`rekeying, this`rekeyHs
      ensures Valid() && fresh(Footprint() - old(Footprint()))
      ensures ServerStep(View(), [], [], false) == Endpoints.Rekey3(cfg, old(View()), msg)
    {
      if !rekeying || rekeyHs.None? {
        return;
      }
      var p := rekeyHs.value;
      var key := cfg.noise.read3(p.client, p.server, msg);
      rekeying := false;
      rekeyHs := None;
      if key.None? || key != reg.clientKey {
        return;
      }
      var k := new Keys(false, p);
      keys := k;
    }

    method RekeyTimeout()
      requires Valid()
      modifies this`rekeying, this`rekeyHs
      ensures Valid() && View() == Endpoints.RekeyTimeout(old(View()))
    {
      if rekeying {
        rekeying := false;
        rekeyHs := None;
      }
    }

    /** The switch on the message type. Sealing a reply past the end of the pooled buffer panics. */
    method Dispatch(f: Frame, d: Draw) returns (sends: seq<Wire>, tun: seq<Bytes>, fatal: bool, panics: bool)
      requires Valid() && keys != null
      modifies this, Footprint()
      ensures panics <==> !InBuffer(ServerDispatch(cfg, old(View()), f, Sure(d)).sends)
      ensures !panics ==> Valid() && fresh(Footprint() - old(Footprint()))
      ensures !panics ==> ServerStep(View(), sends, tun, fatal) == ServerDispatch(cfg, old(View()), f, d)
    {
      hide SealedWire, InBuffer, Endpoints.Rekey1, Endpoints.Rekey3, ServerSend, Parse;
      sends, tun, fatal, panics := [], [], false, false;
      DispatchInBuffer(cfg, View(), f, d);
      if f.tag != tag {
        return;
      }
      if f.typ == MSG_DATA {
        var h := Parse(f.payload);
        if |f.payload| <= cfg.mtu && reg.ip.Some? && h.Some? && h.value.src == reg.ip.value {
          tun := [f.payload];
        }
      } else if f.typ == MSG_KEEPALIVE {
        panics := !rekeying && !Fits(d, f.payload);
        if !panics {
          sends := Send(MSG_KEEPALIVE, f.payload, d);
        }
      } else if f.typ == MSG_CLOSE {
        fatal := true;
      } else if f.typ == MSG_REKEY1 {
        var m1 := cfg.noise.read1(f.payload);
        panics := !rekeying && m1.Some? && !Fits(d, cfg.noise.write2(m1.value.0, d.ephemeral));
        if !panics {
          sends := Rekey1(f.payload, d);
        }
      } else if f.typ == MSG_REKEY3 {
        Rekey3(f.payload);
      }
    }

    /** `handle` on a session that has its keys. */
    method HandleFrame(w: Wire, d: Draw) returns (sends: seq<Wire>, tun: seq<Bytes>, fatal: bool, panics: bool)
      requires Valid() && keys != null
      modifies this, Footprint()
      ensures panics <==> Overruns(cfg, old(View()), w, d)
      ensures !panics ==> Valid() && fresh(Footprint() - old(Footprint()))
      ensures !panics ==> ServerStep(View(), sends, tun, fatal) == ServerReceive(cfg, old(View()), w, d)
    {
      hide OpenWire, InBuffer, ServerDispatch;
      ghost var k0 := keys.View();
      var r := keys.Open(w);
      if r.Refused? {
        OpenRefused(k0, w);
        NothingInBuffer();
        return [], [], false, false;
      }
      sends, tun, fatal, panics := Dispatch(r.frame, d);
    }
  }
}
