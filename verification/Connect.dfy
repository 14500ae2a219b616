/** How a client and a server come together: three handshake messages, with a cookie in between if one is asked for. */
module Connecting {
  import opened Bytes
  import opened Framing
  import opened NoiseXK
  import opened SessionKeys
  import opened Endpoints
  import opened CookieDoor
  import L = Limiter

  // ---- The client waits for message 2 ----

  /** `hs.Read` takes the datagram for message 2 of the handshake e. */
  predicate Reads(cfg: ClientConfig, e: Point, w: Wire) {
    w.Raw? && cfg.noise.read2(e, w.bytes).Some?
  }

  /** It does not, and the datagram is as long as a cookie. */
  predicate LooksLikeCookie(cfg: ClientConfig, e: Point, w: Wire) {
    w.Raw? && |w.bytes| == COOKIE_LEN && !Reads(cfg, e, w)
  }

  /** What the client sends while it listens, the server's ephemeral key if it hears it, and what it took for that. */
  datatype Heard = Heard(sends: seq<Wire>, reply: Option<Point>, taken: nat)

  /** `waitHandshakeReply`: `first` says that no cookie has come yet, `ok` whether sending again succeeds. */
  function Listen(cfg: ClientConfig, e: Point, m1: Bytes, first: bool, recv: seq<Wire>, ok: bool): Heard
    decreases |recv|
  {
    if recv == [] then Heard([], None, 0)
    else
      var w := recv[0];
      if Reads(cfg, e, w) then Heard([], cfg.noise.read2(e, w.bytes), 1)
      else if first && LooksLikeCookie(cfg, e, w) then
        if !ok then Heard([], None, 1)
        else
          var again := m1 + w.bytes;
          var h := Listen(cfg, e, again, false, recv[1..], ok);
          Heard([Raw(again)] + h.sends, h.reply, h.taken + 1)
      else
        var h := Listen(cfg, e, m1, first, recv[1..], ok);
        h.(taken := h.taken + 1)
  }

  /** Where the first such datagram is; the number of datagrams if there is none. */
  function FirstReply(cfg: ClientConfig, e: Point, recv: seq<Wire>): (n: nat)
    ensures n <= |recv| && (n < |recv| ==> Reads(cfg, e, recv[n]))
    ensures forall i :: 0 <= i < n ==> !Reads(cfg, e, recv[i])
  {
    if recv == [] || Reads(cfg, e, recv[0]) then 0
    else
      var n := FirstReply(cfg, e, recv[1..]);
      assert forall i :: 1 <= i < n + 1 ==> recv[i] == recv[1..][i - 1];
      n + 1
  }

  function FirstCookie(cfg: ClientConfig, e: Point, recv: seq<Wire>): (n: nat)
    ensures n <= |recv| && (n < |recv| ==> LooksLikeCookie(cfg, e, recv[n]))
    ensures forall i :: 0 <= i < n ==> !LooksLikeCookie(cfg, e, recv[i])
  {
    if recv == [] || LooksLikeCookie(cfg, e, recv[0]) then 0
    else
      var n := FirstCookie(cfg, e, recv[1..]);
      assert forall i :: 1 <= i < n + 1 ==> recv[i] == recv[1..][i - 1];
      n + 1
  }

  /**
   * Whatever comes in: the client goes by the first datagram that is a message 2, and before that sends
   * message 1 again at most once, with the first cookie appended. If that fails it gives up there.
   */
  lemma {:induction false} ListenExact(cfg: ClientConfig, e: Point, m1: Bytes, first: bool, recv: seq<Wire>, ok: bool)
    ensures var h, n, c := Listen(cfg, e, m1, first, recv, ok), FirstReply(cfg, e, recv), FirstCookie(cfg, e, recv);
            if first && c < n && !ok then h == Heard([], None, c + 1)
            else
              && h.sends == (if first && c < n then [Raw(m1 + recv[c].bytes)] else [])
              && (if n < |recv| then h.reply == cfg.noise.read2(e, recv[n].bytes) && h.taken == n + 1
                  else h.reply == None && h.taken == |recv|)
    decreases |recv|
  {
    if recv != [] && !Reads(cfg, e, recv[0]) {
      if first && LooksLikeCookie(cfg, e, recv[0]) {
        if ok {
          ListenExact(cfg, e, m1 + recv[0].bytes, false, recv[1..], ok);
        }
      } else {
        ListenExact(cfg, e, m1, first, recv[1..], ok);
      }
    }
  }

  /** Which of the client's three kinds of Send succeed: message 1, message 1 again, message 3. */
  datatype Sends = Sends(first: bool, again: bool, third: bool)

  /** `handshake` up to message 3: what leaves, and the keys if it gets so far. */
  function Dial(cfg: ClientConfig, e: Point, tag: Tag, recv: seq<Wire>, ok: Sends): (seq<Wire>, Option<Pair>) {
    var m1 := cfg.noise.write1(e, tag);
    if !ok.first then ([], None)
    else
      var h := Listen(cfg, e, m1, true, recv, ok.again);
      var sends := [Raw(m1)] + h.sends;
      if h.reply.None? || !ok.third then (sends, None)
      else (sends + [Raw(cfg.noise.write3(e, h.reply.value, cfg.identity))], Some(Pair(e, h.reply.value)))
  }

  /** A client that connects again starts like a new one, except that it remembers its last address. */
  lemma ReconnectsAsNew(cfg: ClientConfig, c: Client, e: Point, tag: Tag, recv: seq<Wire>, ok: Sends)
    requires Dial(cfg, e, tag, recv, ok).1.Some?
    ensures var p := Dial(cfg, e, tag, recv, ok).1.value;
            && p.client == e
            && Teardown(c).(keys := Some(NewKeys(true, p)), tag := tag)
               == Client(Some(NewKeys(true, p)), tag, false, c.address, false, None)
  {
    hide Listen;
  }

  // ---- The server's side of it ----

  function FreshSession(): Server {
    Server(None, None, None, [0, 0, 0, 0], None, false, None)
  }

  /** The moments at which messages 1 and, with a cookie, 1 again arrive, and what the session draws then. */
  datatype Moments = Moments(c1: L.Call, d1: Draw, c2: L.Call, d2: Draw)

  /** The session after message 1, sent again if need be, and everything that it has sent to the client. */
  function Greet(cfg: Config, mac: Mac, buckets: map<string, L.Bucket>, peer: Option<Peer>, e: Point, tag: Tag,
                 t: Moments): (Server, seq<Wire>)
  {
    var m1 := cfg.client.noise.write1(e, tag);
    var r1 := Knock(cfg.server, mac, buckets, FreshSession(), Raw(m1), peer, t.c1, t.d1);
    var again := Listen(cfg.client, e, m1, true, r1.sends, true).sends;
    if again == [] then (r1.server, r1.sends)
    else
      var rates := AfterKnock(buckets, Raw(m1), peer, t.c1);
      var r2 := Knock(cfg.server, mac, rates, r1.server, again[0], peer, t.c2, t.d2);
      (r2.server, r1.sends + r2.sends)
  }

  /** The handshake as a whole: the keys the client ends up with, and the session's step on message 3. */
  function Connect(cfg: Config, mac: Mac, buckets: map<string, L.Bucket>, peer: Option<Peer>, e: Point, tag: Tag,
                   t: Moments, allowed: Point -> bool, address: Option<nat>, d: Draw): (Option<Pair>, ServerStep)
  {
    var (s, recv) := Greet(cfg, mac, buckets, peer, e, tag, t);
    var (sends, p) := Dial(cfg.client, e, tag, recv, Sends(true, true, true));
    if p.None? || s.hs.None? then (p, Idle(s))
    else (p, Handshake3(cfg.server, s, sends[|sends| - 1], allowed, address, d))
  }

  /** The rate table asks a cookie of message 1. */
  predicate Asked(buckets: map<string, L.Bucket>, peer: Option<Peer>, c: L.Call) {
    peer.Some? && !L.Passes(L.Lookup(buckets, peer.value.name), c)
  }

  /** Cookies have 32 bytes, and the client answers within the hour. */
  ghost predicate Timely(mac: Mac, peer: Option<Peer>, t: Moments) {
    && (peer.Some? ==> |mac(peer.value.ip, Window(t.c1.later))| == COOKIE_LEN)
    && t.c1.later <= t.c2.now <= t.c1.later + HOUR && t.d1.sendOk && t.d2.sendOk
  }

  lemma Greeted(cfg: Config, mac: Mac, buckets: map<string, L.Bucket>, peer: Option<Peer>, e: Point, tag: Tag,
                t: Moments)
    requires Matched(cfg) && Timely(mac, peer, t)
    ensures var (s, recv) := Greet(cfg, mac, buckets, peer, e, tag, t);
            var d := if Asked(buckets, peer, t.c1) then t.d2 else t.d1;
            && s == FreshSession().(tag := tag, hs := Some(Pair(e, d.ephemeral)))
            && Listen(cfg.client, e, cfg.client.noise.write1(e, tag), true, recv, true).reply == Some(d.ephemeral)
  {
    hide Knock, Listen, Window, L.Passes, L.Counted;
    var m1 := cfg.client.noise.write1(e, tag);
    BareKnock(cfg.server, mac, buckets, FreshSession(), peer, e, tag, t.c1, t.d1);
    var r1 := Knock(cfg.server, mac, buckets, FreshSession(), Raw(m1), peer, t.c1, t.d1);
    if Asked(buckets, peer, t.c1) {
      var cookie := mac(peer.value.ip, Window(t.c1.later));
      SameHour(t.c1.later);
      CookieUnread(cfg.client, e, cookie);
      ListenCookie(cfg.client, e, m1, cookie);
      var rates := AfterKnock(buckets, Raw(m1), peer, t.c1);
      NextHour(t.c1.later, t.c2.now);
      CookiedKnock(cfg.server, mac, rates, r1.server, peer, e, tag, cookie, t.c2, t.d2);
      var r2 := Knock(cfg.server, mac, rates, r1.server, Raw(m1 + cookie), peer, t.c2, t.d2);
      ListenBoth(cfg.client, e, m1, cookie, r2.sends);
    } else {
      ListenReply(cfg.client, e, m1, r1.sends);
    }
  }

  lemma SameHour(t: int)
    ensures Window(t) == t / 3_600_000_000_000
  {
  }

  lemma NextHour(made: int, shown: int)
    requires made <= shown <= made + HOUR
    ensures Window(made) == shown / 3_600_000_000_000 || Window(made) == shown / 3_600_000_000_000 - 1
  {
  }

  /** Message 2 is longer than a cookie. */
  lemma CookieUnread(cfg: ClientConfig, e: Point, cookie: Bytes)
    requires Ideal(cfg.noise) && |cookie| == COOKIE_LEN
    ensures LooksLikeCookie(cfg, e, Raw(cookie))
  {
  }

  lemma ListenReply(cfg: ClientConfig, e: Point, m1: Bytes, recv: seq<Wire>)
    requires |recv| == 1 && Reads(cfg, e, recv[0])
    ensures Listen(cfg, e, m1, true, recv, true) == Heard([], cfg.noise.read2(e, recv[0].bytes), 1)
  {
  }

  lemma ListenCookie(cfg: ClientConfig, e: Point, m1: Bytes, cookie: Bytes)
    requires LooksLikeCookie(cfg, e, Raw(cookie))
    ensures Listen(cfg, e, m1, true, [Raw(cookie)], true).sends == [Raw(m1 + cookie)]
  {
    hide Reads;
    assert [Raw(cookie)][1..] == [];
  }

  lemma ListenBoth(cfg: ClientConfig, e: Point, m1: Bytes, cookie: Bytes, recv: seq<Wire>)
    requires LooksLikeCookie(cfg, e, Raw(cookie)) && |recv| == 1 && Reads(cfg, e, recv[0])
    ensures Listen(cfg, e, m1, true, [Raw(cookie)] + recv, true).reply == cfg.noise.read2(e, recv[0].bytes)
  {
    hide Reads;
    assert ([Raw(cookie)] + recv)[1..] == recv;
  }

  /**
   * Whatever the rate table holds: if the client answers a challenge within the hour, the handshake
   * brings both ends to one pair of ephemeral keys and the client's tag; and if its key is allowed and
   * an address is left, they are where every connection begins. Otherwise the session is over and has
   * sent nothing more.
   */
  lemma ConnectMeets(cfg: Config, mac: Mac, buckets: map<string, L.Bucket>, peer: Option<Peer>, e: Point, tag: Tag,
                     t: Moments, allowed: Point -> bool, address: Option<nat>, d: Draw)
    requires Matched(cfg) && Timely(mac, peer, t)
    ensures var (keys, r) := Connect(cfg, mac, buckets, peer, e, tag, t, allowed, address, d);
            var p := Pair(e, if Asked(buckets, peer, t.c1) then t.d2.ephemeral else t.d1.ephemeral);
            && keys == Some(p)
            && if allowed(cfg.client.identity) && address.Some? then
                 (Client(Some(NewKeys(true, p)), tag, false, None, false, None), r)
                 == Meet(cfg, p, tag, address.value, d)
               else r.fatal && r.sends == [] && r.server.keys.None?
  {
    hide Greet, Listen, SealedWire, AssignPayload, Asked;
    Greeted(cfg, mac, buckets, peer, e, tag, t);
    var p := Pair(e, if Asked(buckets, peer, t.c1) then t.d2.ephemeral else t.d1.ephemeral);
    assert cfg.server.noise.read3(p.client, p.server, cfg.client.noise.write3(p.client, p.server, cfg.client.identity))
        == Some(cfg.client.identity);
  }

  /** And when the assignment then arrives, the client is connected at the address it was given. */
  lemma MeetConnects(cfg: Config, p: Pair, tag: Tag, ip: nat, d: Draw, hear: Draw)
    requires Matched(cfg) && d.sendOk
    ensures var (c, r) := Meet(cfg, p, tag, ip, d);
            && |r.sends| == 1
            && var c' := ClientReceive(cfg.client, c, r.sends[0], hear).client;
               && c'.connected && c'.keys.Some? && c'.keys.value.SendKey() == Key(p, true)
               && c'.address == Some(Assignment(cfg.server.prefix % 256, ip % TWO32, cfg.server.gw % TWO32))
  {
    hide SealedWire, Carried, OpenWire, Offered, AssignPayload, ParseAssign;
    var a := Assignment(cfg.server.prefix, ip, cfg.server.gw);
    var k, m := NewKeys(false, p), Message(d.nonce, tag, MSG_ASSIGN, AssignPayload(a), d.padding);
    assert cfg.server.noise.read3(p.client, p.server, cfg.client.noise.write3(p.client, p.server, cfg.client.identity))
        == Some(cfg.client.identity);
    CarriedSealed(k, m);
    OpenStep(NewKeys(true, p), SealedWire(k, m));
    ParseAssigned(a);
  }
}
