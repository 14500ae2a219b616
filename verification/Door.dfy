/** The door before the first handshake: rate limit and cookies of `handshake1` in internal/session/server.go. */
module CookieDoor {
  import opened Bytes
  import opened Framing
  import opened NoiseXK
  import opened SessionKeys
  import opened Endpoints
  import L = Limiter

  /** The client's address, if the transport tells: its bytes, and as the key of the rate table. */
  datatype Peer = Peer(ip: Bytes, name: string)

  /** The cookie of an address in a time window, a MAC under the server's secret: `MakeCookie`. */
  type Mac = (Bytes, int) -> Bytes

  const HOUR: int := 3600 * 1_000_000_000

  /** The time window of a moment, in nanoseconds. */
  function Window(t: int): int { t / HOUR }

  /** `validCookie`: this window's cookie or the last one's. */
  predicate ValidCookie(mac: Mac, ip: Bytes, cookie: Bytes, t: int) {
    cookie == mac(ip, Window(t)) || cookie == mac(ip, Window(t) - 1)
  }

  /** How a first message without a cookie is met: beyond the rate, with a challenge. */
  function BareDoor(mac: Mac, buckets: map<string, L.Bucket>, peer: Option<Peer>, c: L.Call): Door {
    if peer.Some? && !L.Passes(L.Lookup(buckets, peer.value.name), c)
    then Challenge(mac(peer.value.ip, Window(c.later))) else Door.Admit
  }

  /** And one with a cookie: a wrong cookie gets a challenge. An AEAD box ends in no cookie the server has made. */
  function CookiedDoor(mac: Mac, peer: Option<Peer>, w: Wire, c: L.Call): Door {
    if peer.Some? && !(w.Raw? && |w.bytes| >= 52 && ValidCookie(mac, peer.value.ip, w.bytes[52..], c.now))
    then Challenge(mac(peer.value.ip, Window(c.later))) else Door.Admit
  }

  /** Only a message without a cookie is counted against its address. */
  function AfterKnock(buckets: map<string, L.Bucket>, w: Wire, peer: Option<Peer>, c: L.Call): map<string, L.Bucket> {
    if Len(w) == 52 && peer.Some? then L.Counted(buckets, peer.value.name, c) else buckets
  }

  /** The first datagram of a session, at a door with these books. */
  function Knock(cfg: ServerConfig, mac: Mac, buckets: map<string, L.Bucket>, s: Server, w: Wire, peer: Option<Peer>,
                 c: L.Call, d: Draw): ServerStep
  {
    Handshake1(cfg, s, w, BareDoor(mac, buckets, peer, c), CookiedDoor(mac, peer, w, c), d)
  }

  // ---- What a first message gets ----

  /** The server's answer to a message 1 that it takes up: the message 2 that the sender of message 1 can read. */
  ghost predicate TakenUpBy(cfg: ServerConfig, s: Server, r: ServerStep, e: Point, tag: Tag, d: Draw) {
    && r.server == s.(tag := tag, hs := Some(Pair(e, d.ephemeral))) && r.tun == [] && !r.fatal
    && if d.sendOk then |r.sends| == 1 && r.sends[0].Raw? && cfg.noise.read2(e, r.sends[0].bytes) == Some(d.ephemeral)
       else r.sends == []
  }

  /** It gets exactly the cookie of its address and hour, and leaves no handshake behind. */
  predicate ChallengedBy(mac: Mac, s: Server, r: ServerStep, ip: Bytes, t: int, d: Draw) {
    r == ServerStep(s, if d.sendOk then [Raw(mac(ip, t / 3_600_000_000_000))] else [], [], false)
  }

  /** Message 1 without a cookie: within the rate, or from nowhere, it is taken up; otherwise it is challenged. */
  lemma BareKnock(cfg: ServerConfig, mac: Mac, buckets: map<string, L.Bucket>, s: Server, peer: Option<Peer>, e: Point,
                  tag: Tag, c: L.Call, d: Draw)
    requires Ideal(cfg.noise)
    ensures var r := Knock(cfg, mac, buckets, s, Raw(cfg.noise.write1(e, tag)), peer, c, d);
            if peer.None? || L.Passes(L.Lookup(buckets, peer.value.name), c) then TakenUpBy(cfg, s, r, e, tag, d)
            else ChallengedBy(mac, s, r, peer.value.ip, c.later, d)
  {
    var m := cfg.noise.write1(e, tag);
    assert |m| == 52 && cfg.noise.read1(m) == Some((e, tag));
    assert m[..52] == m;
    assert cfg.noise.read2(e, cfg.noise.write2(e, d.ephemeral)) == Some(d.ephemeral);
  }

  /** With a cookie: it is taken up if the cookie is of its address and of this hour or the last. */
  lemma CookiedKnock(cfg: ServerConfig, mac: Mac, buckets: map<string, L.Bucket>, s: Server, peer: Option<Peer>,
                     e: Point, tag: Tag, cookie: Bytes, c: L.Call, d: Draw)
    requires Ideal(cfg.noise) && |cookie| == 32
    ensures var r := Knock(cfg, mac, buckets, s, Raw(cfg.noise.write1(e, tag) + cookie), peer, c, d);
            var hour := c.now / 3_600_000_000_000;
            if peer.None? || cookie == mac(peer.value.ip, hour) || cookie == mac(peer.value.ip, hour - 1)
            then TakenUpBy(cfg, s, r, e, tag, d)
            else ChallengedBy(mac, s, r, peer.value.ip, c.later, d)
  {
    var m := cfg.noise.write1(e, tag);
    var all := m + cookie;
    assert |m| == 52 && cfg.noise.read1(m) == Some((e, tag));
    assert all[..52] == m && all[52..] == cookie;
    assert cfg.noise.read2(e, cfg.noise.write2(e, d.ephemeral)) == Some(d.ephemeral);
  }

  /** Anything that is not a message 1 with four bytes of tag ends the session, unless the door challenges it first. */
  lemma MalformedKnock(cfg: ServerConfig, mac: Mac, buckets: map<string, L.Bucket>, s: Server, w: Wire,
                       peer: Option<Peer>, c: L.Call, d: Draw)
    requires w.Raw? && |w.bytes| >= 52 ==>
               var m := cfg.noise.read1(w.bytes[..52]); m.None? || |m.value.1| != 4
    ensures var r := Knock(cfg, mac, buckets, s, w, peer, c, d);
            || r == ServerStep(s, [], [], true)
            || (peer.Some? && (Len(w) == 52 || Len(w) == 84) && ChallengedBy(mac, s, r, peer.value.ip, c.later, d))
  {
  }

  /** No two addresses and windows have the same cookie. */
  ghost predicate Distinct(mac: Mac) {
    forall ip, win, ip', win' :: mac(ip, win) == mac(ip', win') ==> ip == ip' && win == win'
  }

  /** A cookie is good for its own address, for more than an hour and less than two. */
  lemma CookieLasts(mac: Mac, ip: Bytes, ip': Bytes, made: int, shown: int)
    requires Distinct(mac) && made <= shown
    ensures ValidCookie(mac, ip', mac(ip, Window(made)), shown) ==> ip' == ip && shown < made + 2 * 3_600_000_000_000
    ensures ip' == ip && shown <= made + 3_600_000_000_000 ==> ValidCookie(mac, ip', mac(ip, Window(made)), shown)
  {
  }

  // ---- Many first messages ----

  /** A first message, with the session it opens and the moment it comes. */
  datatype Visit = Visit(s: Server, w: Wire, peer: Option<Peer>, c: L.Call, d: Draw)

  /** The rate table after the visits. */
  function Rates(vs: seq<Visit>): map<string, L.Bucket> {
    if vs == [] then map[] else
      var v := vs[|vs| - 1];
      AfterKnock(Rates(vs[..|vs| - 1]), v.w, v.peer, v.c)
  }

  /** The last visit came from the address, without a cookie, within ten seconds of `from`, and got message 2. */
  predicate AnsweredLast(cfg: ServerConfig, mac: Mac, vs: seq<Visit>, name: string, from: int)
    requires vs != []
  {
    var v := vs[|vs| - 1];
    && Len(v.w) == 52 && v.peer.Some? && v.peer.value.name == name && from <= v.c.now <= from + 10_000_000_000
    && v.s.hs.None? && Knock(cfg, mac, Rates(vs[..|vs| - 1]), v.s, v.w, v.peer, v.c, v.d).server.hs.Some?
  }

  function AnsweredIn(cfg: ServerConfig, mac: Mac, vs: seq<Visit>, name: string, from: int): nat {
    if vs == [] then 0 else
      AnsweredIn(cfg, mac, vs[..|vs| - 1], name, from) + if AnsweredLast(cfg, mac, vs, name, from) then 1 else 0
  }

  /** The calls on the rate table that the visits make. */
  function Requests(vs: seq<Visit>): seq<L.Request> {
    if vs == [] then [] else
      var v := vs[|vs| - 1];
      Requests(vs[..|vs| - 1])
      + if Len(v.w) == 52 && v.peer.Some? then [L.Request(v.peer.value.name, v.c)] else []
  }

  /** Only what the rate table passes is answered. */
  lemma AnsweredPassed(cfg: ServerConfig, mac: Mac, vs: seq<Visit>, name: string, from: int)
    requires vs != [] && AnsweredLast(cfg, mac, vs, name, from)
    ensures L.Passes(L.Lookup(Rates(vs[..|vs| - 1]), name), vs[|vs| - 1].c)
  {
    hide Rates, L.Passes, L.Lookup;
  }

  lemma RequestsLast(vs: seq<Visit>, v: Visit)
    requires vs != [] && v == vs[|vs| - 1]
    ensures Requests(vs) == Requests(vs[..|vs| - 1])
                            + if Len(v.w) == 52 && v.peer.Some? then [L.Request(v.peer.value.name, v.c)] else []
    ensures Rates(vs) == AfterKnock(Rates(vs[..|vs| - 1]), v.w, v.peer, v.c)
  {
  }

  lemma TableLast(rs: seq<L.Request>, r: L.Request, name: string, from: int)
    ensures L.Table(rs + [r]) == L.Counted(L.Table(rs), r.ip, r.call)
    ensures r.ip == name && L.Passes(L.Lookup(L.Table(rs), name), r.call)
            && from <= r.call.now <= from + 10_000_000_000 ==>
              L.LetThroughIn(rs + [r], name, from) == L.LetThroughIn(rs, name, from) + 1
    ensures L.LetThroughIn(rs + [r], name, from) >= L.LetThroughIn(rs, name, from)
  {
    hide L.Passes, L.Lookup, L.Counted;
    assert (rs + [r])[..|rs|] == rs;
  }

  lemma {:induction false} AnsweredWereLetThrough(cfg: ServerConfig, mac: Mac, vs: seq<Visit>, name: string, from: int)
    ensures Rates(vs) == L.Table(Requests(vs))
    ensures AnsweredIn(cfg, mac, vs, name, from) <= L.LetThroughIn(Requests(vs), name, from)
  {
    if vs != [] {
      var v, before := vs[|vs| - 1], vs[..|vs| - 1];
      AnsweredWereLetThrough(cfg, mac, before, name, from);
      hide Knock, Rates, Requests, L.Table, L.LetThroughIn, L.Passes, L.Lookup, L.Counted;
      RequestsLast(vs, v);
      var rs := Requests(before);
      if AnsweredLast(cfg, mac, vs, name, from) {
        AnsweredPassed(cfg, mac, vs, name, from);
      }
      if Len(v.w) == 52 && v.peer.Some? {
        TableLast(rs, L.Request(v.peer.value.name, v.c), name, from);
      } else {
        assert rs + [] == rs;
      }
    }
  }

  /** The clock does not go back between visits. */
  ghost predicate Ordered(vs: seq<Visit>) {
    && (forall i :: 0 <= i < |vs| ==> vs[i].c.now <= vs[i].c.later)
    && (forall i, j :: 0 <= i < j < |vs| ==> vs[i].c.later <= vs[j].c.now)
  }

  lemma {:induction false} RequestsOrdered(vs: seq<Visit>, end: int)
    requires Ordered(vs) && forall i :: 0 <= i < |vs| ==> vs[i].c.later <= end
    ensures L.InOrder(Requests(vs)) && forall i :: 0 <= i < |Requests(vs)| ==> Requests(vs)[i].call.later <= end
  {
    if vs != [] {
      RequestsOrdered(vs[..|vs| - 1], vs[|vs| - 1].c.now);
    }
  }

  /**
   * Whoever else knocks in between, with whatever messages: of the first messages that come from one
   * address without a cookie, at most 39 are answered in any ten seconds.
   */
  lemma AtMost39Answered(cfg: ServerConfig, mac: Mac, vs: seq<Visit>, name: string, from: int)
    requires Ordered(vs) && L.Unwrapped(L.CallsFrom(Requests(vs), name))
    ensures AnsweredIn(cfg, mac, vs, name, from) <= 39
  {
    hide AnsweredIn, Requests, L.Unwrapped;
    AnsweredWereLetThrough(cfg, mac, vs, name, from);
    RequestsOrdered(vs, if vs == [] then 0 else vs[|vs| - 1].c.later);
    L.TableAtMost39(Requests(vs), name, from);
  }
}
