/** The AEAD state of one key epoch: `Keys` in internal/session/session.go. */
module SessionKeys {
  import opened Bytes
  import opened Framing
  import opened NoiseXK
  import opened ReplayWindows
  import RS = ReplaySpec
  import W = Words

  const REPLAY_WINDOW_SIZE: nat := 2048

  /** One direction of one handshake's transport keys. */
  datatype Key = Key(pair: Pair, toServer: bool)

  type Nonce = n: Bytes | |n| == NONCE_LEN witness seq(NONCE_LEN, _ => 0)

  /** A datagram: an AEAD box, opaque without its key, or any other bytes. */
  datatype Wire = Raw(bytes: Bytes) | Box(key: Key, nonce: Nonce, inner: Bytes)

  function Len(w: Wire): nat {
    match w
    case Raw(b) => |b|
    case Box(_, _, inner) => NONCE_LEN + |inner| + TAG_LEN
  }

  datatype Error = ErrShort | ErrAuth | ErrReplay

  datatype Opening = Opened(frame: Frame) | Refused(error: Error)

  datatype KeyState = KeyState(pair: Pair, isClient: bool, sendSeq: nat, replay: RS.Window) {
    function SendKey(): Key { Key(pair, isClient) }
    function RecvKey(): Key { Key(pair, !isClient) }
  }

  function NewKeys(isClient: bool, pair: Pair): KeyState {
    KeyState(pair, isClient, 0, RS.Fresh(REPLAY_WINDOW_SIZE))
  }

  /** What a caller asks to have sealed, with the random bytes that go into it. */
  datatype Message = Message(nonce: Nonce, tag: Tag, typ: Byte, payload: Bytes, padding: Bytes)

  function SealedWire(k: KeyState, m: Message): Wire {
    Box(k.SendKey(), m.nonce, Inner(m.tag, m.typ, k.sendSeq % TWO32, m.payload, m.padding))
  }

  function AfterSeal(k: KeyState): KeyState {
    k.(sendSeq := (k.sendSeq + 1) % W.TWO64)
  }

  /** The AEAD accepts exactly what was sealed under the key it opens with. */
  predicate Authentic(k: KeyState, w: Wire) {
    w.Box? && w.key == k.RecvKey()
  }

  function OpenWire(k: KeyState, w: Wire): (KeyState, Opening) {
    if Len(w) < NONCE_LEN + TAG_LEN then (k, Refused(ErrShort))
    else if !Authentic(k, w) then (k, Refused(ErrAuth))
    else
      match ParseInner(w.inner)
      case None => (k, Refused(ErrShort))
      case Some(f) =>
        if !RS.Check(k.replay, f.num) then (k, Refused(ErrReplay))
        else (k.(replay := RS.Add(k.replay, f.num)), Opened(f))
  }

  /**
   * How a datagram is refused: as short if it is shorter than nonce and AEAD tag, or authentic but its
   * frame does not parse; as a forgery if it was not sealed by the other end of this handshake; as a
   * replay if the window refuses its number.
   */
  lemma OpenExact(k: KeyState, w: Wire)
    ensures var r := OpenWire(k, w).1;
            var ours := w.Box? && w.key == Key(k.pair, !k.isClient);
            && (r == Refused(ErrAuth) <==> Len(w) >= 28 && !ours)
            && (r == Refused(ErrShort) <==>
                Len(w) < 28 || (ours && (|w.inner| < 11 || 11 + Duo(w.inner, 9) > |w.inner|)))
            && (r == Refused(ErrReplay) <==>
                && ours && |w.inner| >= 11 && 11 + Duo(w.inner, 9) <= |w.inner|
                && !RS.Check(k.replay, Quad(w.inner, 5)))
  {
    hide ParseInner, Quad, Duo, RS.Check, RS.Add;
    if w.Box? {
      ParseInnerExact(w.inner);
    }
  }

  // ---- Shaping decides the length of what leaves ----

  /** The padding that the policy asks for. */
  predicate Shaped(s: Shaping, m: Message, d: Draws) {
    |m.padding| == PaddingFor(s, HEADER_LEN + |m.payload|, d)
  }

  /** With "pad", all messages that are short enough leave as datagrams of one and the same length. */
  lemma PaddedAlike(s: Shaping, k: KeyState, m: Message, d: Draws)
    requires s.mode == Pad && Shaped(s, m, d) && 39 + |m.payload| <= s.padTo <= MAX_WIRE
    ensures Len(SealedWire(k, m)) == s.padTo
  {
    PadWireLen(s, HEADER_LEN + |m.payload|, d);
  }

  /** Whatever the policy, a datagram has the length that WireLen gives. */
  lemma ShapedLen(s: Shaping, k: KeyState, m: Message, d: Draws)
    requires Shaped(s, m, d)
    ensures Len(SealedWire(k, m)) == WireLen(s, 11 + |m.payload|, d)
  {
    hide PaddingFor;
  }

  class Keys {
    const pair: Pair
    const isClient: bool
    var sendSeq: nat
    const replay: ReplayWindow
    /** The plaintext of the last frame opened; the next one may overwrite it. */
    var recvBuf: array<Byte>

    ghost predicate Valid()
      reads this, replay, replay.bits
    {
      replay.Valid() && recvBuf as object != replay.bits as object
    }

    ghost function View(): KeyState
      requires Valid()
      reads this, replay, replay.bits
    {
      KeyState(pair, isClient, sendSeq, replay.View())
    }

    constructor (isClient: bool, pair: Pair)
      ensures Valid() && fresh(replay) && fresh(replay.bits) && fresh(recvBuf)
      ensures View() == NewKeys(isClient, pair)
    {
      this.isClient := isClient;
      this.pair := pair;
      sendSeq := 0;
      replay := new ReplayWindow(REPLAY_WINDOW_SIZE);
      recvBuf := new Byte[0];
    }

    /** The frame must fit the pooled buffer, or slicing it panics. */
    method Seal(m: Message) returns (w: Wire)
      requires Valid()
      requires HEADER_LEN + |m.payload| + |m.padding| <= MAX_INNER
      modifies this`sendSeq
      ensures Valid()
      ensures w == SealedWire(old(View()), m)
      ensures View() == AfterSeal(old(View()))
    {
      var num := sendSeq % TWO32;
      sendSeq := (sendSeq + 1) % W.TWO64;
      var buf := new Byte[MAX_WIRE];
      FillInner(buf, m.tag, m.typ, num, m.payload, m.padding);
      w := Box(Key(pair, isClient), m.nonce, buf[NONCE_LEN..NONCE_LEN + HEADER_LEN + |m.payload| + |m.padding|]);
    }

    /** OpenInto: the plaintext goes into the reused buffer, which grows as needed. */
    method Fill(inner: Bytes)
      requires Valid()
      modifies this`recvBuf, recvBuf
      ensures Valid() && View() == old(View()) && (recvBuf == old(recvBuf) || fresh(recvBuf))
      ensures |inner| <= recvBuf.Length && recvBuf[..|inner|] == inner
    {
      if |inner| > recvBuf.Length {
        recvBuf := new Byte[|inner|];
      }
      for i := 0 to |inner|
        invariant recvBuf.Length >= |inner| && recvBuf[..i] == inner[..i]
        invariant Valid() && View() == old(View()) && (recvBuf == old(recvBuf) || fresh(recvBuf))
      {
        recvBuf[i] := inner[i];
      }
    }

    /** The payload returned is the buffer's content from the header on: it lasts until the next Open. */
    method Open(w: Wire) returns (r: Opening)
      requires Valid()
      modifies this`recvBuf, recvBuf, replay, replay.bits
      ensures Valid() && (recvBuf == old(recvBuf) || fresh(recvBuf))
      ensures (View(), r) == OpenWire(old(View()), w)
      ensures r.Opened? ==> HEADER_LEN + |r.frame.payload| <= recvBuf.Length
                            && recvBuf[HEADER_LEN..HEADER_LEN + |r.frame.payload|] == r.frame.payload
    {
      if Len(w) < NONCE_LEN + TAG_LEN {
        return Refused(ErrShort);
      }
      if !(w.Box? && w.key == Key(pair, !isClient)) {
        return Refused(ErrAuth);
      }
      if |w.inner| < HEADER_LEN {
        return Refused(ErrShort);
      }
      Fill(w.inner);
      var p := ParseInner(recvBuf[..|w.inner|]);
      if p.None? {
        return Refused(ErrShort);
      }
      var ok := replay.Check(p.value.num);
      if !ok {
        return Refused(ErrReplay);
      }
      replay.Add(p.value.num);
      return Opened(p.value);
    }
  }

  // ---- A whole connection under one key, with an adversary between seal and open ----

  /** Everything the sender seals under one key, in order. */
  function SealAll(k: KeyState, ms: seq<Message>): (ws: seq<Wire>)
    ensures |ws| == |ms|
    decreases |ms|
  {
    if ms == [] then [] else [SealedWire(k, ms[0])] + SealAll(AfterSeal(k), ms[1..])
  }

  lemma SealAllNext(k: KeyState, ms: seq<Message>, i: nat)
    requires 0 < i < |ms|
    ensures SealAll(k, ms)[i] == SealAll(AfterSeal(k), ms[1..])[i - 1]
  {
  }

  /** Each datagram goes under the sender's key with its own nonce, and is 39 bytes longer than payload and padding. */
  lemma {:induction false} SealedAs(k: KeyState, ms: seq<Message>, i: nat)
    requires i < |ms|
    ensures var w := SealAll(k, ms)[i];
            && w.Box? && w.key == k.SendKey() && w.nonce == ms[i].nonce
            && Len(w) == 39 + |ms[i].payload| + |ms[i].padding|
    decreases i
  {
    hide Inner;
    if i > 0 {
      SealedAs(AfterSeal(k), ms[1..], i - 1);
    }
  }

  /** The receiver after it has been handed the datagrams ws. */
  function OpenAll(k: KeyState, ws: seq<Wire>): KeyState {
    if ws == [] then k else OpenWire(OpenAll(k, ws[..|ws| - 1]), ws[|ws| - 1]).0
  }

  /** The sequence number the window gets to judge: that of an authentic datagram. */
  function Offered(key: Key, w: Wire): Option<Frame> {
    if w.Box? && w.key == key then ParseInner(w.inner) else None
  }

  function Offers(key: Key, ws: seq<Wire>): seq<nat> {
    if ws == [] then [] else
      var before := Offers(key, ws[..|ws| - 1]);
      match Offered(key, ws[|ws| - 1])
      case Some(f) => before + [f.num]
      case None => before
  }

  predicate Returns(k: KeyState, w: Wire, n: nat) {
    var r := OpenWire(k, w).1;
    r.Opened? && r.frame.num == n
  }

  /** How often the receiver returns a frame with sequence number n. */
  function Returned(k: KeyState, ws: seq<Wire>, n: nat): nat {
    if ws == [] then 0 else
      var i := |ws| - 1;
      Returned(k, ws[..i], n) + if Returns(OpenAll(k, ws[..i]), ws[i], n) then 1 else 0
  }

  lemma OpenStep(k: KeyState, w: Wire)
    ensures OpenWire(k, w).0 == match Offered(k.RecvKey(), w)
                                case Some(f) => k.(replay := RS.Offer(k.replay, f.num))
                                case None => k
    ensures OpenWire(k, w).1.Opened? <==>
            Offered(k.RecvKey(), w).Some? && RS.Check(k.replay, Offered(k.RecvKey(), w).value.num)
    ensures OpenWire(k, w).1.Opened? ==> OpenWire(k, w).1.frame == Offered(k.RecvKey(), w).value
  {
  }

  /** What is refused leaves the keys as they were. */
  lemma OpenRefused(k: KeyState, w: Wire)
    requires OpenWire(k, w).1.Refused?
    ensures OpenWire(k, w).0 == k
  {
  }

  lemma OfferLast(w: RS.Window, before: seq<nat>, x: nat, n: nat)
    ensures RS.After(w, before + [x]) == RS.Offer(RS.After(w, before), x)
    ensures RS.Count(w, before + [x], n)
         == RS.Count(w, before, n) + if x == n && RS.Check(RS.After(w, before), n) then 1 else 0
  {
    assert (before + [x])[..|before|] == before;
  }

  /** The receiver's window is that of the authentic numbers, and it returns what the window accepts. */
  lemma {:induction false} OpenAllReplay(k: KeyState, ws: seq<Wire>, n: nat)
    ensures OpenAll(k, ws) == k.(replay := RS.After(k.replay, Offers(k.RecvKey(), ws)))
    ensures Returned(k, ws, n) == RS.Count(k.replay, Offers(k.RecvKey(), ws), n)
  {
    if ws != [] {
      var i := |ws| - 1;
      OpenAllReplay(k, ws[..i], n);
      OpenStep(OpenAll(k, ws[..i]), ws[i]);
      match Offered(k.RecvKey(), ws[i])
      case Some(f) => OfferLast(k.replay, Offers(k.RecvKey(), ws[..i]), f.num, n);
      case None =>
    }
  }

  /** What opening makes of a sealed frame: every field, without the padding. */
  lemma OfferedSealed(s: KeyState, m: Message)
    requires |m.payload| < TWO16
    ensures Offered(s.SendKey(), SealedWire(s, m)) == Some(Frame(m.tag, m.typ, s.sendSeq % TWO32, m.payload))
  {
    hide Inner, ParseInner;
    ParseSealed(m.tag, m.typ, s.sendSeq % TWO32, m.payload, m.padding);
    assert m.payload[..|m.payload|] == m.payload;
  }

  lemma OfferedBounded(key: Key, w: Wire)
    requires Offered(key, w).Some?
    ensures |Offered(key, w).value.payload| < TWO16 && Offered(key, w).value.num < TWO32
  {
    ParsedIsInner(w.inner);
  }

  /** The frame in a box; anything else carries a frame of zeros. */
  function Carried(w: Wire): Frame {
    var f := if w.Box? then Offered(w.key, w) else None;
    if f.Some? then f.value else Frame([0, 0, 0, 0], 0, 0, [])
  }

  lemma CarriedSealed(k: KeyState, m: Message)
    requires |m.payload| < TWO16
    ensures SealedWire(k, m).Box? && SealedWire(k, m).key == k.SendKey()
    ensures Carried(SealedWire(k, m)) == Frame(m.tag, m.typ, k.sendSeq % TWO32, m.payload)
    ensures Offered(k.SendKey(), SealedWire(k, m)) == Some(Carried(SealedWire(k, m)))
  {
    hide Inner, ParseInner, Offered;
    OfferedSealed(k, m);
  }

  /** Whatever the payload's length, the header survives sealing. */
  lemma SealedHeader(k: KeyState, m: Message)
    ensures var w := SealedWire(k, m);
            && w.Box? && w.key == k.SendKey()
            && Carried(w).tag == m.tag && Carried(w).typ == m.typ && Carried(w).num == k.sendSeq % TWO32
  {
    hide Inner, ParseInner;
    ParseSealed(m.tag, m.typ, k.sendSeq % TWO32, m.payload, m.padding);
  }

  /** The frame that the i-th message comes back as. */
  function FrameOf(m: Message, i: nat): Frame {
    Frame(m.tag, m.typ, i, m.payload)
  }

  lemma {:induction false} SealedOffers(s: KeyState, ms: seq<Message>, i: nat, w: Wire)
    requires i < |ms| && s.sendSeq + |ms| <= TWO32 && |ms[i].payload| < TWO16
    requires SealAll(s, ms)[i] == w
    ensures Offered(s.SendKey(), w) == Some(FrameOf(ms[i], s.sendSeq + i))
    decreases i
  {
    hide Offered, SealAll, AfterSeal;
    if i == 0 {
      SealAllFirst(s, ms);
      OfferedSealed(s, ms[0]);
    } else {
      SealAllNext(s, ms, i);
      NextNumber(s);
      SealedOffers(AfterSeal(s), ms[1..], i - 1, w);
      assert ms[1..][i - 1] == ms[i];
    }
  }

  lemma SealAllFirst(k: KeyState, ms: seq<Message>)
    requires ms != []
    ensures SealAll(k, ms)[0] == SealedWire(k, ms[0])
  {
  }

  lemma NextNumber(k: KeyState)
    requires k.sendSeq < TWO32
    ensures AfterSeal(k) == k.(sendSeq := k.sendSeq + 1)
  {
  }

  /**
   * Integrity: if every box under the receiving key came from the sender, then whatever the
   * receiver returns, in any state, is the frame with that number that the sender sealed.
   */
  lemma ReturnedIsSealed(s: KeyState, k: KeyState, ms: seq<Message>, w: Wire)
    requires s.sendSeq == 0 && |ms| <= TWO32
    requires forall i :: 0 <= i < |ms| ==> |ms[i].payload| < TWO16
    requires s.SendKey() == k.RecvKey()
    requires Authentic(k, w) ==> w in SealAll(s, ms)
    requires OpenWire(k, w).1.Opened?
    ensures var f := OpenWire(k, w).1.frame;
            f.num < |ms| && f == FrameOf(ms[f.num], f.num)
  {
    OpenStep(k, w);
    var i :| 0 <= i < |ms| && SealAll(s, ms)[i] == w;
    SealedOffers(s, ms, i, w);
  }

  /**
   * Over any network that loses, repeats, reorders and forges, each sealed frame is returned at
   * most twice, and at most once unless its arrival moved the window by its whole size.
   */
  lemma ReturnedAtMostTwice(isClient: bool, pair: Pair, ws: seq<Wire>, n: nat)
    ensures Returned(NewKeys(isClient, pair), ws, n) <= 2
    ensures n !in RS.Jumped(RS.Fresh(REPLAY_WINDOW_SIZE), Offers(Key(pair, !isClient), ws))
            ==> Returned(NewKeys(isClient, pair), ws, n) <= 1
  {
    var k := NewKeys(isClient, pair);
    OpenAllReplay(k, ws, n);
    OffersProper(k.RecvKey(), ws);
    RS.AcceptedAtMostTwice(REPLAY_WINDOW_SIZE, Offers(k.RecvKey(), ws), n);
  }

  /**
   * After any deliveries, an authentic frame that never came before is returned if and only if its
   * number is above the highest returned so far or less than 2048 below it.
   */
  lemma NewReturnedIff(isClient: bool, pair: Pair, ws: seq<Wire>, w: Wire, n: nat)
    requires Offered(Key(pair, !isClient), w).Some? && Offered(Key(pair, !isClient), w).value.num == n
    requires n !in Offers(Key(pair, !isClient), ws)
    ensures var k := OpenAll(NewKeys(isClient, pair), ws);
            Returns(k, w, n) <==> k.replay.high == RS.EMPTY || n > k.replay.high - 2048
  {
    hide OpenWire, Offered, RS.Check, RS.Recorded, RS.Jumped, OpenAll;
    var k0, offers := NewKeys(isClient, pair), Offers(Key(pair, !isClient), ws);
    var k := OpenAll(k0, ws);
    OpenAllReplay(k0, ws, n);
    OffersProper(k0.RecvKey(), ws);
    OpenStep(k, w);
    RS.NewAcceptedIff(2048, offers, n);
  }

  lemma {:induction false} OffersProper(key: Key, ws: seq<Wire>)
    ensures RS.Proper(Offers(key, ws))
  {
    if ws != [] {
      OffersProper(key, ws[..|ws| - 1]);
    }
  }

  /** The datagrams that authenticate under the key. */
  function Genuine(key: Key, ws: seq<Wire>): seq<Wire> {
    if ws == [] then [] else
      var w := ws[|ws| - 1];
      if w.Box? && w.key == key then Genuine(key, ws[..|ws| - 1]) + [w] else Genuine(key, ws[..|ws| - 1])
  }

  lemma {:induction false} GenuineOffers(key: Key, ws: seq<Wire>)
    ensures Offers(key, Genuine(key, ws)) == Offers(key, ws)
  {
    if ws != [] {
      var i := |ws| - 1;
      GenuineOffers(key, ws[..i]);
      var g := Genuine(key, ws[..i]);
      assert (g + [ws[i]])[..|g|] == g;
    }
  }

  /** Datagrams that do not authenticate leave no trace in the receiver, whatever they are mixed with. */
  lemma ForgeriesInert(k: KeyState, ws: seq<Wire>, n: nat)
    ensures OpenAll(k, ws) == OpenAll(k, Genuine(k.RecvKey(), ws))
    ensures Returned(k, ws, n) == Returned(k, Genuine(k.RecvKey(), ws), n)
  {
    OpenAllReplay(k, ws, n);
    OpenAllReplay(k, Genuine(k.RecvKey(), ws), n);
    GenuineOffers(k.RecvKey(), ws);
  }
}
