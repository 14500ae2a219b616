/** The session manager's books: who holds which id, address and key (`Manager` in internal/session/server.go). */
module RegistrySpec {
  import opened Bytes
  import opened NoiseXK
  import opened AddressPool
  import opened Sizes

  /** The part of a serverSession that the manager keeps track of. */
  class Session {
    const sid: nat
    var clientKey: Option<Point>
    var ip: Option<nat>
    var transferred: bool
    var cancelled: bool

    constructor (sid: nat)
      ensures this.sid == sid && clientKey == None && ip == None && !transferred && !cancelled
    {
      this.sid := sid;
      clientKey := None;
      ip := None;
      transferred := false;
      cancelled := false;
    }
  }

  datatype Info = Info(sid: nat, key: Option<Point>, ip: Option<nat>, transferred: bool)

  /**
   * `live` holds every session that was inserted and not yet removed, bumped ones included;
   * `pending` the ids handed out by HandleTransport calls that have not inserted their session yet.
   */
  datatype State = State(
    byID: map<nat, Session>,
    byIP: map<nat, Session>,
    byStatic: map<Point, Session>,
    used: set<nat>,
    nextID: nat,
    live: map<Session, Info>,
    pending: multiset<nat>,
    sessions: int)

  datatype Limits = Limits(subnet: Subnet, maxSessions: nat, callers: nat)

  // ---- Session ids ----

  /** `nextID++`, skipping 0. */
  function NextId(x: nat): nat {
    if (x + 1) % TWO32 == 0 then 1 else (x + 1) % TWO32
  }

  function Advance(x: nat, k: nat): nat {
    if k == 0 then x else NextId(Advance(x, k - 1))
  }

  /** id is the first one after x, going round, that is not in ids. */
  ghost predicate FirstFreeId(ids: set<nat>, x: nat, id: nat) {
    exists d: nat :: d >= 1 && Advance(x, d) == id && id !in ids && forall j :: 1 <= j < d ==> Advance(x, j) in ids
  }

  /** How many steps from x to the id f, going round. */
  function Distance(x: nat, f: nat): int {
    if x < f then f - x else f - x + (TWO32 - 1)
  }

  lemma {:induction false} AdvanceRange(x: nat, k: nat)
    requires x < TWO32 && k >= 1
    ensures 1 <= Advance(x, k) < TWO32
  {
    if k > 1 {
      AdvanceRange(x, k - 1);
    }
  }

  /** A first free id is a nonzero 32-bit number, and there is only one. */
  lemma FirstFreeIdUnique(ids: set<nat>, x: nat, a: nat, b: nat)
    requires x < TWO32 && FirstFreeId(ids, x, a) && FirstFreeId(ids, x, b)
    ensures a == b && 1 <= a < TWO32
  {
    var d: nat :| d >= 1 && Advance(x, d) == a && a !in ids && forall j :: 1 <= j < d ==> Advance(x, j) in ids;
    var e: nat :| e >= 1 && Advance(x, e) == b && b !in ids && forall j :: 1 <= j < e ==> Advance(x, j) in ids;
    AdvanceRange(x, d);
    assert d == e;
  }

  // ---- Events ----

  datatype Event =
    | Admit(id: nat)
    | Insert(s: Session)
    | Identify(s: Session, key: Point)
    | Adopt(s: Session, key: Point)
    | Remove(s: Session)

  /** First critical section of HandleTransport: room is checked and an id taken. */
  ghost predicate CanAdmit(lim: Limits, st: State, id: nat) {
    && |st.byID| < lim.maxSessions
    && |st.pending| < lim.callers
    && FirstFreeId(st.byID.Keys, st.nextID, id)
  }

  function AfterAdmit(st: State, id: nat): State {
    st.(nextID := id, pending := st.pending + multiset{id})
  }

  /** Second critical section: the session is entered. */
  predicate CanInsert(st: State, s: Session) {
    s.sid in st.pending && s !in st.live
  }

  function AfterInsert(st: State, s: Session): State {
    st.(byID := st.byID[s.sid := s], pending := st.pending - multiset{s.sid},
        live := st.live[s := Info(s.sid, None, None, false)], sessions := st.sessions + 1)
  }

  /** A live session that has not been given an address; adopt is called for no other. */
  predicate Handshaking(st: State, s: Session) {
    s in st.live && st.live[s].ip.None?
  }

  /** The session a reconnecting client takes over from. */
  predicate HandsOver(st: State, key: Point) {
    key in st.byStatic && st.byStatic[key] in st.live && st.live[st.byStatic[key]].ip.Some?
  }

  /** The newcomer takes the address of the session that held the key, and that session leaves byID. */
  function AfterHandover(st: State, s: Session, key: Point): State
    requires Handshaking(st, s) && HandsOver(st, key)
  {
    var prev := st.byStatic[key];
    var a := st.live[prev].ip.value;
    st.(byIP := st.byIP[a := s], byStatic := st.byStatic[key := s], byID := st.byID - {st.live[prev].sid},
        live := st.live[s := st.live[s].(key := Some(key), ip := Some(a))][prev := st.live[prev].(transferred := true)])
  }

  function AfterDraw(st: State, s: Session, key: Point, a: nat): State
    requires Handshaking(st, s)
  {
    st.(used := st.used + {a}, byIP := st.byIP[a := s], byStatic := st.byStatic[key := s],
        live := st.live[s := st.live[s].(key := Some(key), ip := Some(a))])
  }

  /** The client's key is known; the peer list or an exhausted pool may still turn it away. */
  function AfterIdentify(st: State, s: Session, key: Point): State
    requires Handshaking(st, s)
  {
    st.(live := st.live[s := st.live[s].(key := Some(key))])
  }

  /** `adopt`: a known key hands its address over, a new one draws from the pool. */
  function AfterAdopt(lim: Limits, st: State, s: Session, key: Point): State
    requires Handshaking(st, s) && lim.subnet.prefix <= 32
  {
    if HandsOver(st, key) then AfterHandover(st, s, key)
    else
      match FirstFree(lim.subnet, st.used)
      case None => AfterIdentify(st, s, key)
      case Some(a) => AfterDraw(st, s, key, a)
  }

  /** The address that adopt gives the session, if any. */
  function AddressFor(lim: Limits, st: State, s: Session, key: Point): Option<nat>
    requires Handshaking(st, s) && lim.subnet.prefix <= 32
  {
    AfterAdopt(lim, st, s, key).live[s].ip
  }

  /** An index without the entry at k, if that entry still points at s. */
  function Unless<K>(m: map<K, Session>, k: K, s: Session): map<K, Session> {
    if k in m && m[k] == s then m - {k} else m
  }

  /** `remove`: each index is cleared only if it still points at this session. */
  function AfterRemove(st: State, s: Session): State
    requires s in st.live
  {
    var info := st.live[s];
    st.(byID := Unless(st.byID, info.sid, s),
        byIP := if info.ip.Some? then Unless(st.byIP, info.ip.value, s) else st.byIP,
        used := if info.ip.Some? && !info.transferred then st.used - {info.ip.value} else st.used,
        byStatic := if info.key.Some? then Unless(st.byStatic, info.key.value, s) else st.byStatic,
        live := st.live - {s},
        sessions := st.sessions - 1)
  }

  /** An event that is not enabled changes nothing. */
  ghost function Apply(lim: Limits, st: State, e: Event): State
    requires lim.subnet.prefix <= 32
  {
    match e
    case Admit(id) => if CanAdmit(lim, st, id) then AfterAdmit(st, id) else st
    case Insert(s) => if CanInsert(st, s) then AfterInsert(st, s) else st
    case Identify(s, key) => if Handshaking(st, s) then AfterIdentify(st, s, key) else st
    case Adopt(s, key) => if Handshaking(st, s) then AfterAdopt(lim, st, s, key) else st
    case Remove(s) => if s in st.live then AfterRemove(st, s) else st
  }

  ghost function Run(lim: Limits, st: State, es: seq<Event>): State
    requires lim.subnet.prefix <= 32
  {
    if es == [] then st else Apply(lim, Run(lim, st, es[..|es| - 1]), es[|es| - 1])
  }

  function Empty(): State {
    State(map[], map[], map[], {}, 0, map[], multiset{}, 0)
  }

  // ---- Invariants ----

  predicate Current(st: State, s: Session) {
    s in st.live && !st.live[s].transferred
  }

  /** A session that holds an address: its handshake went through and nobody has taken the address over. */
  predicate Holder(st: State, s: Session) {
    Current(st, s) && st.live[s].ip.Some?
  }

  /** Every entry of byID is a session that was not bumped, under its own id. */
  ghost predicate IdsSound(st: State) {
    forall id :: id in st.byID ==> Current(st, st.byID[id]) && st.live[st.byID[id]].sid == id
  }

  ghost predicate AddressesIndexed(st: State) {
    && (forall a :: a in st.byIP ==> Holder(st, st.byIP[a]) && st.live[st.byIP[a]].ip == Some(a))
    && (forall s :: s in st.live && Holder(st, s) ==>
          st.live[s].ip.value in st.byIP && st.byIP[st.live[s].ip.value] == s)
    && st.used == st.byIP.Keys
  }

  ghost predicate KeysIndexed(st: State) {
    && (forall k :: k in st.byStatic ==> Holder(st, st.byStatic[k]) && st.live[st.byStatic[k]].key == Some(k))
    && (forall s :: s in st.live && Holder(st, s) ==>
          st.live[s].key.Some? && st.live[s].key.value in st.byStatic && st.byStatic[st.live[s].key.value] == s)
  }

  ghost predicate Sane(lim: Limits, st: State)
    requires lim.subnet.prefix <= 32
  {
    && (forall s :: s in st.live && st.live[s].transferred ==> st.live[s].ip.Some? && st.live[s].key.Some?)
    && (forall a :: a in st.used ==> lim.subnet.Host(a))
  }

  /** What holds after every run: addresses and keys are indexed exactly, and byID holds nothing stale. */
  ghost predicate Booked(lim: Limits, st: State)
    requires lim.subnet.prefix <= 32
  {
    IdsSound(st) && AddressesIndexed(st) && KeysIndexed(st) && Sane(lim, st)
  }

  // ---- Every step keeps the books ----

  lemma AdmitKeeps(lim: Limits, st: State, id: nat)
    requires lim.subnet.prefix <= 32 && Booked(lim, st)
    ensures Booked(lim, AfterAdmit(st, id))
  {
  }

  lemma InsertIds(lim: Limits, st: State, s: Session)
    requires lim.subnet.prefix <= 32 && IdsSound(st) && Sane(lim, st) && CanInsert(st, s)
    ensures IdsSound(AfterInsert(st, s)) && Sane(lim, AfterInsert(st, s))
  {
  }

  lemma InsertOthers(st: State, s: Session)
    requires AddressesIndexed(st) && KeysIndexed(st) && CanInsert(st, s)
    ensures AddressesIndexed(AfterInsert(st, s)) && KeysIndexed(AfterInsert(st, s))
  {
  }

  lemma InsertKeeps(lim: Limits, st: State, s: Session)
    requires lim.subnet.prefix <= 32 && Booked(lim, st) && CanInsert(st, s)
    ensures Booked(lim, AfterInsert(st, s))
  {
    hide IdsSound, AddressesIndexed, KeysIndexed, Sane, CanInsert, AfterInsert;
    InsertIds(lim, st, s);
    InsertOthers(st, s);
  }

  lemma IdentifyKeeps(lim: Limits, st: State, s: Session, key: Point)
    requires lim.subnet.prefix <= 32 && Booked(lim, st) && Handshaking(st, s)
    ensures Booked(lim, AfterIdentify(st, s, key))
  {
  }

  lemma HandoverIds(st: State, s: Session, key: Point)
    requires IdsSound(st) && Handshaking(st, s) && HandsOver(st, key)
    requires !st.live[s].transferred
    ensures IdsSound(AfterHandover(st, s, key))
  {
  }

  lemma HandoverAddresses(st: State, s: Session, key: Point)
    requires AddressesIndexed(st) && KeysIndexed(st) && Handshaking(st, s) && HandsOver(st, key)
    requires !st.live[s].transferred
    ensures AddressesIndexed(AfterHandover(st, s, key))
  {
  }

  lemma HandoverKeys(st: State, s: Session, key: Point)
    requires KeysIndexed(st) && Handshaking(st, s) && HandsOver(st, key)
    requires !st.live[s].transferred
    ensures KeysIndexed(AfterHandover(st, s, key))
  {
  }

  lemma HandoverSane(lim: Limits, st: State, s: Session, key: Point)
    requires lim.subnet.prefix <= 32 && Sane(lim, st) && KeysIndexed(st) && Handshaking(st, s) && HandsOver(st, key)
    ensures Sane(lim, AfterHandover(st, s, key))
  {
  }

  lemma HandoverKeeps(lim: Limits, st: State, s: Session, key: Point)
    requires lim.subnet.prefix <= 32 && Booked(lim, st) && Handshaking(st, s) && HandsOver(st, key)
    ensures Booked(lim, AfterHandover(st, s, key))
  {
    hide IdsSound, AddressesIndexed, KeysIndexed;
    HandoverSane(lim, st, s, key);
    HandoverIds(st, s, key);
    HandoverAddresses(st, s, key);
    HandoverKeys(st, s, key);
  }

  lemma DrawAddresses(st: State, s: Session, key: Point, a: nat)
    requires AddressesIndexed(st) && Handshaking(st, s) && !st.live[s].transferred && a !in st.used
    ensures AddressesIndexed(AfterDraw(st, s, key, a))
  {
  }

  lemma DrawKeys(st: State, s: Session, key: Point, a: nat)
    requires KeysIndexed(st) && Handshaking(st, s) && !st.live[s].transferred && !HandsOver(st, key)
    ensures KeysIndexed(AfterDraw(st, s, key, a))
  {
  }

  lemma DrawIds(st: State, s: Session, key: Point, a: nat)
    requires IdsSound(st) && Handshaking(st, s)
    ensures IdsSound(AfterDraw(st, s, key, a))
  {
  }

  lemma DrawKeeps(lim: Limits, st: State, s: Session, key: Point, a: nat)
    requires lim.subnet.prefix <= 32 && Booked(lim, st) && Handshaking(st, s)
    requires !HandsOver(st, key) && lim.subnet.Host(a) && a !in st.used
    ensures Booked(lim, AfterDraw(st, s, key, a))
  {
    hide IdsSound, AddressesIndexed, KeysIndexed;
    DrawIds(st, s, key, a);
    DrawAddresses(st, s, key, a);
    DrawKeys(st, s, key, a);
  }

  /** The key index points only at sessions that hold an address, so never at one still in its handshake. */
  lemma KnownKey(lim: Limits, st: State, s: Session, key: Point)
    requires lim.subnet.prefix <= 32 && Booked(lim, st) && Handshaking(st, s)
    ensures key in st.byStatic <==> HandsOver(st, key)
    ensures key in st.byStatic ==> st.byStatic[key] != s
  {
  }

  /** Knowing the key beforehand changes nothing about the adoption. */
  lemma AdoptIdentified(lim: Limits, st: State, s: Session, key: Point)
    requires lim.subnet.prefix <= 32 && Booked(lim, st) && Handshaking(st, s)
    ensures Handshaking(AfterIdentify(st, s, key), s)
    ensures AfterAdopt(lim, AfterIdentify(st, s, key), s, key) == AfterAdopt(lim, st, s, key)
  {
    hide Booked;
    KnownKey(lim, st, s, key);
    if HandsOver(st, key) {
      assert AfterHandover(AfterIdentify(st, s, key), s, key).live == AfterHandover(st, s, key).live;
    } else {
      assert st.live[s := st.live[s].(key := Some(key))][s := st.live[s].(key := Some(key))]
          == st.live[s := st.live[s].(key := Some(key))];
    }
  }

  lemma AdoptKeeps(lim: Limits, st: State, s: Session, key: Point)
    requires lim.subnet.prefix <= 32 && Booked(lim, st) && Handshaking(st, s)
    ensures Booked(lim, AfterAdopt(lim, st, s, key))
  {
    hide Booked, AfterHandover, AfterDraw, AfterIdentify;
    if HandsOver(st, key) {
      HandoverKeeps(lim, st, s, key);
    } else {
      match FirstFree(lim.subnet, st.used)
      case None => IdentifyKeeps(lim, st, s, key);
      case Some(a) =>
        FirstFreeIsLeast(lim.subnet, st.used, a);
        DrawKeeps(lim, st, s, key, a);
    }
  }

  lemma RemoveIds(st: State, s: Session)
    requires IdsSound(st) && s in st.live
    ensures IdsSound(AfterRemove(st, s))
  {
  }

  lemma RemoveAddresses(st: State, s: Session)
    requires AddressesIndexed(st) && s in st.live
    ensures AddressesIndexed(AfterRemove(st, s))
  {
  }

  lemma RemoveKeys(st: State, s: Session)
    requires KeysIndexed(st) && s in st.live
    ensures KeysIndexed(AfterRemove(st, s))
  {
  }

  lemma RemoveKeeps(lim: Limits, st: State, s: Session)
    requires lim.subnet.prefix <= 32 && Booked(lim, st) && s in st.live
    ensures Booked(lim, AfterRemove(st, s))
  {
    hide IdsSound, AddressesIndexed, KeysIndexed;
    RemoveIds(st, s);
    RemoveAddresses(st, s);
    RemoveKeys(st, s);
  }

  lemma StepKeeps(lim: Limits, st: State, e: Event)
    requires lim.subnet.prefix <= 32 && Booked(lim, st)
    ensures Booked(lim, Apply(lim, st, e))
  {
    hide Booked, AfterAdmit, AfterInsert, AfterIdentify, AfterAdopt, AfterRemove, CanInsert, Handshaking;
    match e
    case Admit(id) => if CanAdmit(lim, st, id) { AdmitKeeps(lim, st, id); }
    case Insert(s) => if CanInsert(st, s) { InsertKeeps(lim, st, s); }
    case Identify(s, key) => if Handshaking(st, s) { IdentifyKeeps(lim, st, s, key); }
    case Adopt(s, key) => if Handshaking(st, s) { AdoptKeeps(lim, st, s, key); }
    case Remove(s) => if s in st.live { RemoveKeeps(lim, st, s); }
  }

  lemma EmptyBooked(lim: Limits)
    requires lim.subnet.prefix <= 32
    ensures Booked(lim, Empty())
  {
  }

  /**
   * After every sequence of connects, handshakes, reconnects and removals: byIP and byStatic index
   * exactly the live sessions that completed a handshake and were not bumped, each by its own
   * address and key; the pool's used set is exactly their addresses; and byID holds only live
   * sessions that were not bumped, each under its own id.
   */
  lemma {:induction false} BooksConsistent(lim: Limits, es: seq<Event>)
    requires lim.subnet.prefix <= 32
    ensures Booked(lim, Run(lim, Empty(), es))
  {
    EmptyBooked(lim);
    hide Booked, Apply, Empty;
    if es != [] {
      BooksConsistent(lim, es[..|es| - 1]);
      StepKeeps(lim, Run(lim, Empty(), es[..|es| - 1]), es[|es| - 1]);
    }
  }

  // ---- What the books give ----

  /**
   * No two live sessions that were not bumped share an address, and traffic for an address goes to the one
   * that holds it.
   */
  lemma AddressesUnshared(lim: Limits, es: seq<Event>, s: Session, t: Session)
    requires lim.subnet.prefix <= 32
    requires var st := Run(lim, Empty(), es);
             Holder(st, s) && Current(st, t) && st.live[t].ip == st.live[s].ip
    ensures var st := Run(lim, Empty(), es);
            && s == t && st.live[s].ip.value in st.byIP && st.byIP[st.live[s].ip.value] == s
            && lim.subnet.Host(st.live[s].ip.value)
  {
    hide Run, IdsSound, KeysIndexed;
    BooksConsistent(lim, es);
  }

  /** The event removes the very session that holds the key. */
  predicate RemovesHolder(st: State, e: Event, key: Point) {
    e.Remove? && key in st.byStatic && st.byStatic[key] == e.s
  }

  /** The key's session is routed at address a. */
  predicate RoutedAt(st: State, key: Point, a: nat) {
    && key in st.byStatic && st.byStatic[key] in st.live && st.live[st.byStatic[key]].ip == Some(a)
    && a in st.byIP && st.byIP[a] == st.byStatic[key] && a in st.used
  }

  lemma AdoptRouted(lim: Limits, st: State, s: Session, k: Point, key: Point, a: nat)
    requires lim.subnet.prefix <= 32 && Booked(lim, st) && Handshaking(st, s) && RoutedAt(st, key, a)
    ensures RoutedAt(AfterAdopt(lim, st, s, k), key, a)
  {
    hide IdsSound;
    if !HandsOver(st, k) {
      match FirstFree(lim.subnet, st.used)
      case None =>
      case Some(b) => FirstFreeIsLeast(lim.subnet, st.used, b);
    }
  }

  /** A newcomer that overlaps the session holding its key becomes that key's session, at the same address. */
  lemma NewcomerTakesOver(lim: Limits, st: State, s: Session, key: Point, a: nat)
    requires lim.subnet.prefix <= 32 && Booked(lim, st) && Handshaking(st, s) && RoutedAt(st, key, a)
    ensures var st' := Apply(lim, st, Adopt(s, key));
            var prev := st.byStatic[key];
            && st'.byStatic[key] == s && st'.live[s].ip == Some(a) && Current(st', s)
            && prev in st'.live && !Current(st', prev) && st.live[prev].sid !in st'.byID
            && st'.used == st.used && RoutedAt(st', key, a)
  {
    hide IdsSound, AddressesIndexed;
    AdoptRouted(lim, st, s, key, key, a);
  }

  lemma RemoveRouted(lim: Limits, st: State, s: Session, key: Point, a: nat)
    requires lim.subnet.prefix <= 32 && Booked(lim, st) && s in st.live && RoutedAt(st, key, a)
    requires st.byStatic[key] != s
    ensures RoutedAt(AfterRemove(st, s), key, a)
  {
    hide IdsSound;
  }

  lemma StepRouted(lim: Limits, st: State, e: Event, key: Point, a: nat)
    requires lim.subnet.prefix <= 32 && Booked(lim, st) && RoutedAt(st, key, a) && !RemovesHolder(st, e, key)
    ensures RoutedAt(Apply(lim, st, e), key, a)
  {
    hide Booked, AfterAdopt, AfterRemove;
    match e
    case Admit(id) =>
    case Insert(s) =>
    case Identify(s, k) =>
    case Adopt(s, k) => if Handshaking(st, s) { AdoptRouted(lim, st, s, k, key, a); }
    case Remove(s) => if s in st.live { RemoveRouted(lim, st, s, key, a); }
  }

  /**
   * Address handover: through any chain of reconnects on one key, mixed with any other traffic and
   * with the late removal of every session bumped on the way, the key keeps one address and its
   * newest session is the one routed, until that newest session itself is removed.
   */
  lemma {:induction false} AddressSticks(lim: Limits, st: State, es: seq<Event>, key: Point, a: nat)
    requires lim.subnet.prefix <= 32 && Booked(lim, st) && RoutedAt(st, key, a)
    requires forall i :: 0 <= i < |es| ==> !RemovesHolder(Run(lim, st, es[..i]), es[i], key)
    ensures Booked(lim, Run(lim, st, es)) && RoutedAt(Run(lim, st, es), key, a)
  {
    hide Booked, Apply, RoutedAt, RemovesHolder;
    if es != [] {
      var k := |es| - 1;
      var before := es[..k];
      forall i | 0 <= i < |before|
        ensures !RemovesHolder(Run(lim, st, before[..i]), before[i], key)
      {
        assert before[..i] == es[..i];
      }
      AddressSticks(lim, st, before, key, a);
      StepKeeps(lim, Run(lim, st, before), es[k]);
      StepRouted(lim, Run(lim, st, before), es[k], key, a);
    }
  }

  /** The late removal of a bumped session touches no index and frees no address. */
  lemma LateRemovalInert(lim: Limits, st: State, s: Session)
    requires lim.subnet.prefix <= 32 && Booked(lim, st) && s in st.live && st.live[s].transferred
    ensures AfterRemove(st, s) == st.(live := st.live - {s}, sessions := st.sessions - 1)
  {
  }

  // ---- Bumped sessions that outlive their successor ----

  /** Every live session with an address, bumped or not, is of a key that is still routed there. */
  ghost predicate AllRouted(st: State) {
    forall s :: s in st.live && st.live[s].ip.Some? ==>
      st.live[s].key.Some? && RoutedAt(st, st.live[s].key.value, st.live[s].ip.value)
  }

  /** No session is removed while one that it bumped, or that was bumped before, is still live. */
  ghost predicate Orderly(st: State, e: Event) {
    e.Remove? && e.s in st.live && Holder(st, e.s) ==>
      forall t :: t in st.live && st.live[t].transferred ==> st.live[t].key != st.live[e.s].key
  }

  ghost predicate OrderlyRun(lim: Limits, es: seq<Event>)
    requires lim.subnet.prefix <= 32
  {
    es != [] ==>
      OrderlyRun(lim, es[..|es| - 1]) && Orderly(Run(lim, Empty(), es[..|es| - 1]), es[|es| - 1])
  }

  lemma AdoptAllRouted(lim: Limits, st: State, s: Session, key: Point)
    requires lim.subnet.prefix <= 32 && Booked(lim, st) && AllRouted(st) && Handshaking(st, s)
    ensures AllRouted(AfterAdopt(lim, st, s, key))
  {
    var st' := AfterAdopt(lim, st, s, key);
    forall t | t in st'.live && st'.live[t].ip.Some?
      ensures st'.live[t].key.Some? && RoutedAt(st', st'.live[t].key.value, st'.live[t].ip.value)
    {
      if t != s {
        assert st.live[t].ip == st'.live[t].ip && st.live[t].key == st'.live[t].key;
        AdoptRouted(lim, st, s, key, st.live[t].key.value, st.live[t].ip.value);
      } else {
        AdoptedRouted(lim, st, s, key);
      }
    }
  }

  lemma AdoptedRouted(lim: Limits, st: State, s: Session, key: Point)
    requires lim.subnet.prefix <= 32 && Booked(lim, st) && Handshaking(st, s)
    ensures var st' := AfterAdopt(lim, st, s, key);
            && s in st'.live
            && (st'.live[s].ip.Some? ==> st'.live[s].key == Some(key) && RoutedAt(st', key, st'.live[s].ip.value))
  {
    hide IdsSound;
  }

  lemma RemoveAllRouted(lim: Limits, st: State, s: Session)
    requires lim.subnet.prefix <= 32 && Booked(lim, st) && AllRouted(st) && s in st.live && Orderly(st, Remove(s))
    ensures AllRouted(AfterRemove(st, s))
  {
    var st' := AfterRemove(st, s);
    forall t | t in st'.live && st'.live[t].ip.Some?
      ensures st'.live[t].key.Some? && RoutedAt(st', st'.live[t].key.value, st'.live[t].ip.value)
    {
      NotItsHolder(lim, st, s, t);
      RemoveRouted(lim, st, s, st.live[t].key.value, st.live[t].ip.value);
    }
  }

  lemma NotItsHolder(lim: Limits, st: State, s: Session, t: Session)
    requires lim.subnet.prefix <= 32 && Booked(lim, st) && AllRouted(st) && s in st.live && Orderly(st, Remove(s))
    requires t in st.live && t != s && st.live[t].ip.Some?
    ensures st.live[t].key.Some? && RoutedAt(st, st.live[t].key.value, st.live[t].ip.value)
    ensures st.byStatic[st.live[t].key.value] != s
  {
    hide IdsSound, AddressesIndexed;
  }

  lemma StepAllRouted(lim: Limits, st: State, e: Event)
    requires lim.subnet.prefix <= 32 && Booked(lim, st) && AllRouted(st) && Orderly(st, e)
    ensures AllRouted(Apply(lim, st, e))
  {
    hide Booked, AfterAdopt, AfterRemove, CanAdmit;
    match e
    case Admit(id) =>
    case Insert(s) =>
    case Identify(s, key) =>
    case Adopt(s, key) => if Handshaking(st, s) { AdoptAllRouted(lim, st, s, key); }
    case Remove(s) => if s in st.live { RemoveAllRouted(lim, st, s); }
  }

  lemma {:induction false} OrderlyRouted(lim: Limits, es: seq<Event>)
    requires lim.subnet.prefix <= 32 && OrderlyRun(lim, es)
    ensures AllRouted(Run(lim, Empty(), es))
  {
    hide Apply, AllRouted, Orderly, Booked;
    if es == [] {
      EmptyRouted();
    } else {
      OrderlyRouted(lim, es[..|es| - 1]);
      BooksConsistent(lim, es[..|es| - 1]);
      StepAllRouted(lim, Run(lim, Empty(), es[..|es| - 1]), es[|es| - 1]);
    }
  }

  lemma EmptyRouted()
    ensures AllRouted(Empty())
  {
  }

  /**
   * If no session is removed before those bumped on its key, live sessions that share an address,
   * bumped ones included, are all of one key.
   */
  lemma LiveUnshared(lim: Limits, es: seq<Event>, s: Session, t: Session)
    requires lim.subnet.prefix <= 32 && OrderlyRun(lim, es)
    requires var st := Run(lim, Empty(), es);
             s in st.live && t in st.live && st.live[s].ip.Some? && st.live[s].ip == st.live[t].ip
    ensures var st := Run(lim, Empty(), es); st.live[s].key.Some? && st.live[s].key == st.live[t].key
  {
    hide Run, OrderlyRun, IdsSound, AddressesIndexed;
    OrderlyRouted(lim, es);
    BooksConsistent(lim, es);
  }

  // ---- The session limit ----

  /** The sessions in byID and those about to enter it, against MaxSessions and the number of concurrent calls. */
  ghost predicate Limited(lim: Limits, st: State) {
    && st.sessions == |st.live|
    && |st.pending| <= lim.callers
    && (if lim.callers >= 1 && lim.maxSessions >= 1
        then |st.byID| + |st.pending| <= lim.maxSessions + lim.callers - 1
        else |st.byID| == |st.pending| == 0)
  }

  lemma InsertLimited(lim: Limits, st: State, s: Session)
    requires Limited(lim, st) && CanInsert(st, s)
    ensures Limited(lim, AfterInsert(st, s))
  {
    SizeWithAtMost(st.byID, s.sid, s);
    SizeWith(st.live, s, Info(s.sid, None, None, false));
  }

  lemma RemoveLimited(lim: Limits, st: State, s: Session)
    requires Limited(lim, st) && s in st.live
    ensures Limited(lim, AfterRemove(st, s))
  {
    SizeWithoutAtMost(st.byID, st.live[s].sid);
    SizeWithout(st.live, s);
  }

  lemma AdoptLimited(lim: Limits, st: State, s: Session, key: Point)
    requires lim.subnet.prefix <= 32 && Handshaking(st, s)
    ensures var st' := AfterAdopt(lim, st, s, key);
            && |st'.byID| <= |st.byID| && |st'.live| == |st.live|
            && st'.pending == st.pending && st'.sessions == st.sessions
  {
    assert AfterAdopt(lim, st, s, key).live.Keys == st.live.Keys;
    if HandsOver(st, key) {
      SizeWithoutAtMost(st.byID, st.live[st.byStatic[key]].sid);
    }
  }

  lemma StepLimited(lim: Limits, st: State, e: Event)
    requires lim.subnet.prefix <= 32 && Limited(lim, st)
    ensures Limited(lim, Apply(lim, st, e))
  {
    hide AfterInsert, CanInsert, AfterAdopt, AfterRemove, FirstFreeId;
    match e
    case Admit(id) =>
    case Insert(s) => if CanInsert(st, s) { InsertLimited(lim, st, s); }
    case Identify(s, key) => if Handshaking(st, s) { assert AfterIdentify(st, s, key).live.Keys == st.live.Keys; }
    case Adopt(s, key) => if Handshaking(st, s) { AdoptLimited(lim, st, s, key); }
    case Remove(s) => if s in st.live { RemoveLimited(lim, st, s); }
  }

  /**
   * In every run the counter Sessions is the number of sessions inserted and not removed; and though
   * the check and the insertion are separate critical sections, C concurrent HandleTransport calls
   * overshoot MaxSessions by at most C - 1.
   */
  lemma {:induction false} OvershootBounded(lim: Limits, es: seq<Event>)
    requires lim.subnet.prefix <= 32
    ensures Limited(lim, Run(lim, Empty(), es))
  {
    if es != [] {
      hide Apply;
      OvershootBounded(lim, es[..|es| - 1]);
      StepLimited(lim, Run(lim, Empty(), es[..|es| - 1]), es[|es| - 1]);
    }
  }
}
