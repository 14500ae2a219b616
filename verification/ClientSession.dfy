/** The client's run-loop handlers, mutating the session in place: internal/session/client.go. */
module ClientSessions {
  import opened Bytes
  import opened IPv4
  import opened Framing
  import opened NoiseXK
  import opened SessionKeys
  import opened Endpoints
  import opened Connecting

  class ClientSession {
    const cfg: ClientConfig
    var keys: Keys?
    var tag: Tag
    var connected: bool
    var address: Option<Assignment>
    var rekeying: bool
    var rekeyHs: Option<ClientHandshake>

    ghost function Footprint(): set<object>
      reads this, keys
    {
      if keys == null then {} else var k: Keys := keys; {k, k.replay, k.replay.bits, k.recvBuf}
    }

    ghost predicate Valid()
      reads this, keys, Footprint()
    {
      keys != null ==> keys.Valid()
    }

    ghost function View(): Client
      requires Valid()
      reads this, keys, Footprint()
    {
      Client(if keys == null then None else Some(keys.View()), tag, connected, address, rekeying, rekeyHs)
    }

    /** `NewClient`: not connected yet. */
    constructor (cfg: ClientConfig)
      ensures Valid() && this.cfg == cfg
      ensures View() == Client(None, [0, 0, 0, 0], false, None, false, None)
    {
      this.cfg := cfg;
      tag := [0, 0, 0, 0];
      connected := false;
      address := None;
      rekeying := false;
      rekeyHs := None;
      keys := null;
    }

    /** Waits for message 2 in what is received; the first cookie that comes is sent back with message 1. */
    method WaitHandshakeReply(e: Point, m1: Bytes, recv: seq<Wire>, ok: bool) returns (h: Heard)
      ensures h == Listen(cfg, e, m1, true, recv, ok)
    {
      var message, cookie, sends := m1, None, [];
      for i := 0 to |recv|
        invariant var rest := Listen(cfg, e, message, cookie.None?, recv[i..], ok);
                  Listen(cfg, e, m1, true, recv, ok) == Heard(sends + rest.sends, rest.reply, i + rest.taken)
      {
        var w := recv[i];
        assert recv[i..][0] == w && recv[i..][1..] == recv[i + 1..];
        if w.Raw? {
          var reply := cfg.noise.read2(e, w.bytes);
          if reply.Some? {
            return Heard(sends, reply, i + 1);
          }
          if |w.bytes| == COOKIE_LEN && cookie.None? {
            cookie := Some(w.bytes);
            message := message + w.bytes;
            if !ok {
              return Heard(sends, None, i + 1);
            }
            sends := sends + [Raw(message)];
          }
        }
      }
      return Heard(sends, None, |recv|);
    }

    /** `connect`: the old connection is torn down and the handshake made anew; the address is still to come. */
    method Connect(e: Point, t: Tag, recv: seq<Wire>, ok: Sends) returns (sends: seq<Wire>, done: bool)
      requires Valid()
      modifies this
      ensures Valid() && fresh(Footprint())
      ensures var (out, p) := Dial(cfg, e, t, recv, ok);
              && sends == out && done == p.Some?
              && var down := Endpoints.Teardown(old(View()));
                 View() == if p.Some? then down.(keys := Some(NewKeys(true, p.value)), tag := t) else down
    {
      Teardown();
      var m1 := cfg.noise.write1(e, t);
      if !ok.first {
        return [], false;
      }
      var h := WaitHandshakeReply(e, m1, recv, ok.again);
      sends := [Raw(m1)] + h.sends;
      if h.reply.None? || !ok.third {
        return sends, false;
      }
      sends := sends + [Raw(cfg.noise.write3(e, h.reply.value, cfg.identity))];
      tag := t;
      var k := new Keys(true, Pair(e, h.reply.value));
      keys := k;
      done := true;
    }

    /** Seals and sends under the current keys; refused while rekeying, except for rekey messages. */
    method EncryptSend(typ: Byte, pt: Bytes, d: Draw) returns (sends: seq<Wire>, ok: bool)
      requires Valid() && (keys != null && (rekeying ==> IsRekey(typ)) ==> Fits(d, pt))
      modifies Footprint()
      ensures Valid() && Footprint() == old(Footprint())
      ensures keys == null ==> sends == [] && !ok && View() == old(View())
      ensures keys != null ==>
                var k := old(View()).keys.value;
                (View().keys.value, sends, ok) == Endpoints.EncryptSend(k, rekeying, tag, typ, pt, d)
                && View() == old(View()).(keys := View().keys)
    {
      hide Inner, ParseInner;
      if keys == null {
        return [], false;
      }
      if rekeying && !IsRekey(typ) {
        return [], false;
      }
      var w := keys.Seal(Message(d.nonce, tag, typ, pt, d.padding));
      if !d.sendOk {
        return [], false;
      }
      return [w], true;
    }

    /** Keepalives, decoys and the close. What is sealed must fit the buffer. */
    method Send(typ: Byte, pt: Bytes, d: Draw) returns (sends: seq<Wire>)
      requires Valid() && InBuffer(ClientSend(View(), typ, pt, Sure(d)).sends)
      modifies Footprint()
      ensures Valid() && Footprint() == old(Footprint())
      ensures ClientStep(View(), sends, []) == ClientSend(old(View()), typ, pt, d)
    {
      hide SealedWire, InBuffer, Fits;
      if keys != null {
        EncryptSendInBuffer(View().keys.value, rekeying, tag, typ, pt, d);
      }
      var ok;
      sends, ok := EncryptSend(typ, pt, d);
    }

    /** A packet from the TUN: too long or not IPv4, it is dropped. */
    method SendPacket(pkt: Bytes, d: Draw) returns (sends: seq<Wire>)
      requires Valid() && InBuffer(ClientPacket(cfg, View(), pkt, Sure(d)).sends)
      modifies Footprint()
      ensures Valid() && Footprint() == old(Footprint())
      ensures ClientStep(View(), sends, []) == ClientPacket(cfg, old(View()), pkt, d)
    {
      hide ClientSend, InBuffer;
      if |pkt| > cfg.mtu || !IsIPv4(pkt) {
        return [];
      }
      sends := Send(MSG_DATA, pkt, d);
    }

    /** From a keepalive tick. */
    method StartRekey(d: Draw) returns (sends: seq<Wire>)
      requires Valid() && InBuffer(Endpoints.StartRekey(cfg, View(), Sure(d)).sends)
      modifies this`rekeying, this`rekeyHs, Footprint()
      ensures Valid() && Footprint() == old(Footprint())
      ensures ClientStep(View(), sends, []) == Endpoints.StartRekey(cfg, old(View()), d)
    {
      hide SealedWire, InBuffer, Fits;
      if keys == null || !connected || rekeying {
        return [];
      }
      var m1 := cfg.noise.write1(d.ephemeral, []);
      EncryptSendInBuffer(View().keys.value, rekeying, tag, MSG_REKEY1, m1, d);
      var ok;
      sends, ok := EncryptSend(MSG_REKEY1, m1, d);
      if !ok {
        return;
      }
      rekeyHs := Some(AwaitReply(d.ephemeral));
      rekeying := true;
    }

    method ContinueRekey(msg: Bytes, d: Draw) returns (sends: seq<Wire>)
      requires Valid() && keys != null && InBuffer(Endpoints.ContinueRekey(cfg, View(), msg, Sure(d)).sends)
      modifies this`keys, this`rekeying, this`rekeyHs, Footprint()
      ensures Valid() && fresh(Footprint() - old(Footprint()))
      ensures ClientStep(View(), sends, []) == Endpoints.ContinueRekey(cfg, old(View()), msg, d)
    {
      hide SealedWire, InBuffer, Fits;
      sends := [];
      if rekeyHs.None? || rekeyHs.value.Spent? {
        return;
      }
      var e := rekeyHs.value.e;
      var s := cfg.noise.read2(e, msg);
      if s.None? {
        return;
      }
      var m3 := cfg.noise.write3(e, s.value, cfg.identity);
      EncryptSendInBuffer(View().keys.value, rekeying, tag, MSG_REKEY3, m3, d);
      var ok;
      sends, ok := EncryptSend(MSG_REKEY3, m3, d);
      if !ok {
        rekeyHs := Some(Spent);
        return;
      }
      var k := new Keys(true, Pair(e, s.value));
      keys := k;
      rekeying := false;
      rekeyHs := None;
    }

    method Teardown()
      requires Valid()
      modifies this
      ensures Valid() && View() == Endpoints.Teardown(old(View()))
    {
      connected := false;
      rekeying := false;
      rekeyHs := None;
      keys := null;
    }

    /** What the frame says: the address first, afterwards data, the end, or message 2 of a rekey. */
    method Dispatch(f: Frame, d: Draw) returns (sends: seq<Wire>, tun: seq<Bytes>)
      requires Valid() && keys != null && InBuffer(ClientDispatch(cfg, View(), f, Sure(d)).sends)
      modifies this, Footprint()
      ensures Valid() && fresh(Footprint() - old(Footprint()))
      ensures ClientStep(View(), sends, tun) == ClientDispatch(cfg, old(View()), f, d)
    {
      hide SealedWire, InBuffer, Endpoints.ContinueRekey;
      sends, tun := [], [];
      if f.tag != tag {
        return;
      }
      if !connected {
        if f.typ == MSG_ASSIGN {
          var a := ParseAssign(f.payload);
          if a.None? {
            keys := null;
            return;
          }
          address := a;
          connected := true;
        }
        return;
      }
      if f.typ == MSG_DATA {
        if |f.payload| <= cfg.mtu && IsIPv4(f.payload) {
          tun := [f.payload];
        }
      } else if f.typ == MSG_CLOSE {
        Teardown();
      } else if f.typ == MSG_REKEY2 {
        if rekeying {
          sends := ContinueRekey(f.payload, d);
        }
      }
    }

    /** One datagram: opened, checked against the session tag, and dispatched on its type. */
    method HandleFrame(w: Wire, d: Draw) returns (sends: seq<Wire>, tun: seq<Bytes>)
      requires Valid() && InBuffer(ClientReceive(cfg, View(), w, Sure(d)).sends)
      modifies this, Footprint()
      ensures Valid() && fresh(Footprint() - old(Footprint()))
      ensures ClientStep(View(), sends, tun) == ClientReceive(cfg, old(View()), w, d)
    {
      hide OpenWire, InBuffer, ClientDispatch;
      sends, tun := [], [];
      if keys == null {
        return;
      }
      var r := keys.Open(w);
      if r.Refused? {
        OpenRefused(old(View()).keys.value, w);
        return;
      }
      sends, tun := Dispatch(r.frame, d);
    }
  }
}
