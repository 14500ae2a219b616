/** When session ids come round again: how far away that is, and what byID is worth until then. */
module IdSpace {
  import opened Bytes
  import opened NoiseXK
  import opened Sizes
  import opened RegistrySpec

  // ---- Going round the id space ----

  const IDS: nat := TWO32 - 1

  lemma NextClosed(v: nat)
    ensures NextId(v % IDS + 1) == (v + 1) % IDS + 1
  {
    if v % IDS + 1 == IDS {
      assert v + 1 == (v / IDS + 1) * IDS;
    }
  }

  lemma {:induction false} AdvanceClosed(x: nat, k: nat)
    requires 1 <= x < TWO32
    ensures Advance(x, k) == (x - 1 + k) % IDS + 1
  {
    hide NextId;
    if k != 0 {
      AdvanceClosed(x, k - 1);
      NextClosed(x - 1 + (k - 1));
    }
  }

  /** Going round visits different ids until the whole space has been passed. */
  lemma AdvanceDistinct(x: nat, i: nat, j: nat)
    requires 1 <= x < TWO32 && i < j < i + IDS
    ensures Advance(x, i) != Advance(x, j)
  {
    hide Advance;
    AdvanceClosed(x, i);
    AdvanceClosed(x, j);
    RemaindersDiffer(x - 1 + i, j - i);
  }

  lemma RemaindersDiffer(a: nat, k: nat)
    requires 0 < k < IDS
    ensures a % IDS != (a + k) % IDS
  {
    var q, r := a / IDS, a % IDS;
    if r + k < IDS {
      assert (a + k) == IDS * q + (r + k);
    } else {
      assert (a + k) == IDS * (q + 1) + (r + k - IDS);
    }
  }

  lemma {:induction false} AdvanceAdd(x: nat, i: nat, j: nat)
    ensures Advance(x, i + j) == Advance(Advance(x, i), j)
  {
    if j != 0 {
      AdvanceAdd(x, i, j - 1);
    }
  }

  /** The first n ids after x. */
  function Visited(x: nat, n: nat): set<nat> {
    if n == 0 then {} else Visited(x, n - 1) + {Advance(x, n)}
  }

  lemma {:induction false} NotVisited(x: nat, n: nat, m: nat)
    requires 1 <= x < TWO32 && n < m <= IDS
    ensures Advance(x, m) !in Visited(x, n)
  {
    if n != 0 {
      NotVisited(x, n - 1, m);
      AdvanceDistinct(x, n, m);
    }
  }

  lemma {:induction false} VisitedCard(ids: set<nat>, x: nat, n: nat)
    requires 1 <= x < TWO32 && n <= IDS
    requires forall j :: 1 <= j <= n ==> Advance(x, j) in ids
    ensures Visited(x, n) <= ids && |Visited(x, n)| == n
  {
    if n != 0 {
      VisitedCard(ids, x, n - 1);
      NotVisited(x, n - 1, n);
    }
  }

  /** With fewer sessions than ids, some id is free, so the search for one ends. */
  lemma FreeIdExists(ids: set<nat>)
    requires |ids| < IDS
    ensures exists f: nat :: 1 <= f < TWO32 && f !in ids
  {
    if forall j :: 1 <= j <= IDS ==> Advance(1, j) in ids {
      VisitedCard(ids, 1, IDS);
      SubsetSize(Visited(1, IDS), ids);
      assert false;
    }
    var j :| 1 <= j <= IDS && Advance(1, j) !in ids;
    AdvanceRange(1, j);
  }

  /** The events that admit a call. */
  ghost predicate Admits(lim: Limits, st: State, e: Event) {
    e.Admit? && CanAdmit(lim, st, e.id)
  }

  /** How many calls a run admits. */
  ghost function Admissions(lim: Limits, st: State, es: seq<Event>): nat
    requires lim.subnet.prefix <= 32
  {
    if es == [] then 0
    else Admissions(lim, st, es[..|es| - 1]) + if Admits(lim, Run(lim, st, es[..|es| - 1]), es[|es| - 1]) then 1 else 0
  }

  lemma AdvanceNone(x: nat)
    ensures Advance(x, 0) == x
  {
  }

  lemma NextIdKept(lim: Limits, st: State, e: Event)
    requires lim.subnet.prefix <= 32 && !Admits(lim, st, e)
    ensures Apply(lim, st, e).nextID == st.nextID
  {
  }

  // ---- When byID misses nothing ----

  /** Every session that was not bumped is found in byID. */
  ghost predicate IdsComplete(st: State) {
    forall s :: s in st.live && Current(st, s) ==> st.live[s].sid in st.byID && st.byID[st.live[s].sid] == s
  }

  /** byID misses no session, and the ids on their way into it are free and different. */
  ghost predicate IdsExact(st: State) {
    IdsComplete(st) && forall id :: id in st.pending ==> st.pending[id] == 1 && id !in st.byID
  }

  lemma AdmitExact(lim: Limits, st: State, id: nat)
    requires IdsExact(st) && CanAdmit(lim, st, id) && id !in st.pending
    ensures IdsExact(AfterAdmit(st, id))
  {
  }

  lemma InsertExact(st: State, s: Session)
    requires IdsExact(st) && CanInsert(st, s)
    ensures IdsExact(AfterInsert(st, s))
  {
  }

  lemma HandoverExact(st: State, s: Session, key: Point)
    requires IdsExact(st) && KeysIndexed(st) && Handshaking(st, s) && HandsOver(st, key)
    ensures IdsExact(AfterHandover(st, s, key))
  {
  }

  lemma AdoptExact(lim: Limits, st: State, s: Session, key: Point)
    requires lim.subnet.prefix <= 32 && IdsExact(st) && KeysIndexed(st) && Handshaking(st, s)
    ensures IdsExact(AfterAdopt(lim, st, s, key))
  {
    hide KeysIndexed, AfterHandover;
    if HandsOver(st, key) {
      HandoverExact(st, s, key);
    }
  }

  lemma RemoveExact(st: State, s: Session)
    requires IdsExact(st) && s in st.live
    ensures IdsExact(AfterRemove(st, s))
  {
  }

  lemma StepExact(lim: Limits, st: State, e: Event)
    requires lim.subnet.prefix <= 32 && Booked(lim, st) && IdsExact(st)
    requires Admits(lim, st, e) ==> e.id !in st.pending
    ensures IdsExact(Apply(lim, st, e))
  {
    hide IdsExact, IdsSound, AddressesIndexed, KeysIndexed, Sane;
    hide AfterAdmit, AfterInsert, AfterAdopt, AfterRemove, CanInsert, CanAdmit;
    match e
    case Admit(id) => if CanAdmit(lim, st, id) { AdmitExact(lim, st, id); }
    case Insert(s) => if CanInsert(st, s) { InsertExact(st, s); }
    case Identify(s, key) => if Handshaking(st, s) { IdentifyExact(st, s, key); }
    case Adopt(s, key) => if Handshaking(st, s) { AdoptExact(lim, st, s, key); }
    case Remove(s) => if s in st.live { RemoveExact(st, s); }
  }

  lemma IdentifyExact(st: State, s: Session, key: Point)
    requires IdsExact(st) && Handshaking(st, s)
    ensures IdsExact(AfterIdentify(st, s, key))
  {
  }

  // ---- Nobody is given an id that another call still holds ----

  /** No call was ever admitted under an id that another was still holding. */
  ghost predicate Unreused(lim: Limits, es: seq<Event>)
    requires lim.subnet.prefix <= 32
  {
    es != [] ==>
      var before, e := es[..|es| - 1], es[|es| - 1];
      var st := Run(lim, Empty(), before);
      Unreused(lim, before) && (Admits(lim, st, e) ==> e.id !in st.pending)
  }

  /** Then byID is exact. */
  lemma {:induction false} UnreusedExact(lim: Limits, es: seq<Event>)
    requires lim.subnet.prefix <= 32 && Unreused(lim, es)
    ensures Booked(lim, Run(lim, Empty(), es)) && IdsExact(Run(lim, Empty(), es))
  {
    EmptyBooked(lim);
    assert IdsExact(Empty());
    hide Booked, IdsExact, Apply, Empty, CanAdmit;
    if es != [] {
      var n := |es| - 1;
      UnreusedExact(lim, es[..n]);
      StepKeeps(lim, Run(lim, Empty(), es[..n]), es[n]);
      StepExact(lim, Run(lim, Empty(), es[..n]), es[n]);
    }
  }

  /** How many calls have been admitted since the call that holds the id x took it. */
  ghost function Lag(lim: Limits, es: seq<Event>, x: nat): nat
    requires lim.subnet.prefix <= 32
  {
    if es == [] then 0 else
      var before, e := es[..|es| - 1], es[|es| - 1];
      var st := Run(lim, Empty(), before);
      if x !in st.pending then 0 else Lag(lim, before, x) + if Admits(lim, st, e) then 1 else 0
  }

  /** Whenever a call is admitted, no call that still holds its id has been overtaken by more than n others. */
  ghost predicate Prompt(lim: Limits, es: seq<Event>, n: nat)
    requires lim.subnet.prefix <= 32
  {
    es != [] ==>
      var before, e := es[..|es| - 1], es[|es| - 1];
      var st := Run(lim, Empty(), before);
      Prompt(lim, before, n) && (Admits(lim, st, e) ==> forall x :: x in st.pending ==> Lag(lim, before, x) <= n)
  }

  /** The ids in byID and those on their way into it, but for x. */
  function TakenBut(st: State, x: nat): set<nat> {
    st.byID.Keys + (Elements(st.pending) - {x})
  }

  function Elements(m: multiset<nat>): set<nat> {
    set y | y in m
  }

  /**
   * Since x was taken nextID has gone t steps, over ids in q only; q also has every id that is taken
   * now, and no more ids than were taken at the first admission since, and were handed out from there on.
   */
  ghost predicate Trail(lim: Limits, st: State, x: nat, lag: nat, t: nat, q: set<nat>) {
    && 1 <= x < TWO32 && st.nextID == Advance(x, t)
    && (lag == 0 ==> t == 0)
    && (lag > 0 ==>
          && Visited(x, t) <= q && TakenBut(st, x) <= q && x !in q
          && |q| + 3 <= lim.maxSessions + lim.callers + lag)
  }

  lemma {:induction false} VisitedAdd(x: nat, t: nat, d: nat)
    ensures Visited(x, t + d) == Visited(x, t) + Visited(Advance(x, t), d)
  {
    if d != 0 {
      VisitedAdd(x, t, d - 1);
      AdvanceAdd(x, t, d);
    }
  }

  lemma {:induction false} VisitedIn(ids: set<nat>, x: nat, n: nat)
    requires forall j :: 1 <= j <= n ==> Advance(x, j) in ids
    ensures Visited(x, n) <= ids
  {
    if n != 0 {
      VisitedIn(ids, x, n - 1);
    }
  }

  lemma {:induction false} VisitedMonotone(x: nat, n: nat, m: nat)
    requires n <= m
    ensures Visited(x, n) <= Visited(x, m)
  {
    if n < m {
      VisitedMonotone(x, n, m - 1);
    }
  }

  lemma {:induction false} VisitedSize(x: nat, n: nat)
    requires 1 <= x < TWO32 && n <= IDS
    ensures |Visited(x, n)| == n
  {
    if n != 0 {
      VisitedSize(x, n - 1);
      NotVisited(x, n - 1, n);
    }
  }

  /** Whoever finds x again, stepping over ids in q only, has stepped over all the others. */
  lemma AllButOne(x: nat, d: nat, q: set<nat>)
    requires 1 <= x < TWO32 && d >= 1 && Advance(x, d) == x && Visited(x, d - 1) <= q
    ensures |q| + 1 >= IDS
  {
    hide Advance, Visited;
    if d < IDS {
      AdvanceNone(x);
      AdvanceDistinct(x, 0, d);
    } else {
      VisitedMonotone(x, IDS - 1, d - 1);
      VisitedSize(x, IDS - 1);
      SubsetSize(Visited(x, IDS - 1), q);
    }
  }

  /** How an admission finds its id: d steps on, over ids in byID only. */
  lemma Steps(lim: Limits, st: State, id: nat) returns (d: nat)
    requires CanAdmit(lim, st, id)
    ensures d >= 1 && Advance(st.nextID, d) == id && Visited(st.nextID, d - 1) <= st.byID.Keys && id !in st.byID
    ensures Visited(st.nextID, d) <= st.byID.Keys + {id}
  {
    hide Advance;
    d :| d >= 1 && Advance(st.nextID, d) == id && id !in st.byID.Keys
         && forall j :: 1 <= j < d ==> Advance(st.nextID, j) in st.byID.Keys;
    VisitedIn(st.byID.Keys, st.nextID, d - 1);
    VisitedIn(st.byID.Keys + {id}, st.nextID, d);
  }

  /** To be handed out again, the id must have been overtaken by that many calls. */
  lemma TrailEnds(lim: Limits, st: State, x: nat, lag: nat, t: nat, q: set<nat>)
    requires Trail(lim, st, x, lag, t, q) && IdsExact(st) && x in st.pending && CanAdmit(lim, st, x)
    ensures lag + lim.maxSessions + lim.callers > TWO32
  {
    hide Visited, Advance, FirstFreeId, IdsExact, TakenBut;
    var d := Steps(lim, st, x);
    if lag == 0 {
      AdvanceNone(x);
      AllButOne(x, d, st.byID.Keys);
    } else {
      ByIDTaken(st, x);
      VisitedAdd(x, t, d - 1);
      AdvanceAdd(x, t, d);
      AllButOne(x, t + d, q);
    }
  }

  lemma ByIDTaken(st: State, x: nat)
    ensures st.byID.Keys <= TakenBut(st, x)
  {
  }

  lemma HeldIsFree(st: State, x: nat)
    requires IdsExact(st) && x in st.pending
    ensures x !in TakenBut(st, x)
  {
    hide IdsComplete;
  }

  /** At the first admission after x was taken, at most so many other ids are taken. */
  lemma TakenFew(lim: Limits, st: State, x: nat)
    requires x in st.pending && |st.byID| < lim.maxSessions && |st.pending| < lim.callers
    ensures |TakenBut(st, x)| + 3 <= lim.maxSessions + lim.callers
  {
    DistinctFewer(st.pending);
    assert x in Elements(st.pending);
    UnionSize(st.byID.Keys, Elements(st.pending) - {x});
  }

  lemma UnionSize<T>(a: set<T>, b: set<T>)
    ensures |a + b| <= |a| + |b|
  {
    assert a + b == a + (b - a);
    SubsetSize(b - a, b);
  }

  lemma {:induction false} DistinctFewer(m: multiset<nat>)
    ensures |Elements(m)| <= |m|
    decreases |m|
  {
    if m != multiset{} {
      var y :| y in m;
      var less := m[y := 0];
      DistinctFewer(less);
      assert Elements(m) == Elements(less) + {y};
    }
  }

  lemma TakenAdmits(st: State, x: nat, y: nat)
    ensures TakenBut(AfterAdmit(st, y), x) <= TakenBut(st, x) + {y}
  {
  }

  /** An admission of y extends the trail of every id x that another call holds. */
  lemma TrailAdmits(lim: Limits, st: State, x: nat, lag: nat, t: nat, q: set<nat>, y: nat)
      returns (t': nat, q': set<nat>)
    requires Trail(lim, st, x, lag, t, q) && IdsExact(st) && x in st.pending && CanAdmit(lim, st, y) && y !in st.pending
    ensures Trail(lim, AfterAdmit(st, y), x, lag + 1, t', q')
  {
    hide Visited, Advance, FirstFreeId, IdsExact, TakenBut;
    var d := Steps(lim, st, y);
    TakenAdmits(st, x, y);
    ByIDTaken(st, x);
    if lag == 0 {
      HeldIsFree(st, x);
      TakenFew(lim, st, x);
      AdvanceNone(x);
      return d, TakenBut(st, x) + {y};
    }
    AdvanceAdd(x, t, d);
    VisitedAdd(x, t, d);
    return t + d, q + {y};
  }

  /** Other events take no new ids. */
  lemma TakenKept(lim: Limits, st: State, e: Event, x: nat)
    requires lim.subnet.prefix <= 32 && !Admits(lim, st, e) && IdsExact(st)
    requires x in st.pending && x in Apply(lim, st, e).pending
    ensures TakenBut(Apply(lim, st, e), x) <= TakenBut(st, x)
  {
    hide FirstFreeId, IdsComplete;
  }

  /** Every id on its way into byID has its trail. */
  lemma {:induction false} UnreusedTrail(lim: Limits, es: seq<Event>, x: nat) returns (t: nat, q: set<nat>)
    requires lim.subnet.prefix <= 32 && Unreused(lim, es) && x in Run(lim, Empty(), es).pending
    ensures Trail(lim, Run(lim, Empty(), es), x, Lag(lim, es, x), t, q)
  {
    hide Apply, CanAdmit, Trail, AfterAdmit;
    var before, e := es[..|es| - 1], es[|es| - 1];
    var st := Run(lim, Empty(), before);
    if x !in st.pending {
      PendingFrom(lim, st, e, x);
      TrailStarts(lim, before, x);
      Admitted(lim, st, e);
      return 0, {};
    }
    t, q := UnreusedTrail(lim, before, x);
    UnreusedExact(lim, before);
    if Admits(lim, st, e) {
      t, q := TrailAdmits(lim, st, x, Lag(lim, before, x), t, q, e.id);
      Admitted(lim, st, e);
    } else {
      TrailKept(lim, st, e, x, Lag(lim, before, x), t, q);
    }
  }

  lemma Admitted(lim: Limits, st: State, e: Event)
    requires lim.subnet.prefix <= 32 && Admits(lim, st, e)
    ensures Apply(lim, st, e) == AfterAdmit(st, e.id)
  {
  }

  lemma TrailStarts(lim: Limits, es: seq<Event>, x: nat)
    requires lim.subnet.prefix <= 32 && CanAdmit(lim, Run(lim, Empty(), es), x)
    ensures Trail(lim, AfterAdmit(Run(lim, Empty(), es), x), x, 0, 0, {})
  {
    hide Apply, Run, Advance, Visited, FirstFreeId;
    NextIdRange(lim, es);
    AdvanceNone(x);
    var d := Steps(lim, Run(lim, Empty(), es), x);
    AdvanceRange(Run(lim, Empty(), es).nextID, d);
  }

  lemma TrailKept(lim: Limits, st: State, e: Event, x: nat, lag: nat, t: nat, q: set<nat>)
    requires lim.subnet.prefix <= 32 && Trail(lim, st, x, lag, t, q) && !Admits(lim, st, e) && IdsExact(st)
    requires x in st.pending && x in Apply(lim, st, e).pending
    ensures Trail(lim, Apply(lim, st, e), x, lag, t, q)
  {
    hide Apply, IdsExact, TakenBut, Visited, Advance;
    TakenKept(lim, st, e, x);
    NextIdKept(lim, st, e);
  }

  /** An id can be handed out while another call holds it only once that call has been overtaken by so many others. */
  lemma ReuseTakes(lim: Limits, es: seq<Event>, x: nat)
    requires lim.subnet.prefix <= 32 && Unreused(lim, es)
    requires x in Run(lim, Empty(), es).pending && CanAdmit(lim, Run(lim, Empty(), es), x)
    ensures Lag(lim, es, x) + lim.maxSessions + lim.callers > TWO32
  {
    hide Run, Lag, Unreused, Trail, CanAdmit, IdsExact;
    var t, q := UnreusedTrail(lim, es, x);
    UnreusedExact(lim, es);
    TrailEnds(lim, Run(lim, Empty(), es), x, Lag(lim, es, x), t, q);
  }

  lemma {:induction false} PromptUnreused(lim: Limits, es: seq<Event>, n: nat)
    requires lim.subnet.prefix <= 32 && Prompt(lim, es, n) && n + lim.maxSessions + lim.callers <= TWO32
    ensures Unreused(lim, es)
  {
    hide Run, Lag, CanAdmit;
    if es != [] {
      var before, e := es[..|es| - 1], es[|es| - 1];
      PromptUnreused(lim, before, n);
      if Admits(lim, Run(lim, Empty(), before), e) && e.id in Run(lim, Empty(), before).pending {
        ReuseTakes(lim, before, e.id);
      }
    }
  }

  // ---- The first time round ----

  /** Until 2^32 - 1 calls have been admitted, the ids are handed out in order, and none is taken that was not. */
  ghost predicate FirstLap(st: State, admitted: nat) {
    && st.nextID == admitted
    && (forall id :: id in st.byID ==> 1 <= id <= admitted)
    && (forall id :: id in st.pending ==> 1 <= id <= admitted)
    && (forall s :: s in st.live ==> 1 <= st.live[s].sid <= admitted)
  }

  lemma NextInOrder(ids: set<nat>, n: nat, id: nat)
    requires n < IDS && (forall x :: x in ids ==> x <= n) && FirstFreeId(ids, n, id)
    ensures id == n + 1
  {
    var d: nat :| d >= 1 && Advance(n, d) == id && id !in ids && forall j :: 1 <= j < d ==> Advance(n, j) in ids;
    assert Advance(n, 0) == n && Advance(n, 1) == n + 1;
  }

  lemma StepFirstLap(lim: Limits, st: State, e: Event, admitted: nat)
    requires lim.subnet.prefix <= 32 && FirstLap(st, admitted) && (Admits(lim, st, e) ==> admitted < IDS)
    ensures FirstLap(Apply(lim, st, e), if Admits(lim, st, e) then admitted + 1 else admitted)
    ensures Admits(lim, st, e) ==> e.id == admitted + 1
  {
    hide FirstFreeId, AfterInsert, AfterAdopt, AfterRemove, CanInsert, Handshaking;
    match e
    case Admit(id) => if CanAdmit(lim, st, id) { NextInOrder(st.byID.Keys, st.nextID, id); }
    case Insert(s) => if CanInsert(st, s) { InsertFirstLap(st, s, admitted); }
    case Identify(s, key) => if Handshaking(st, s) { IdentifyFirstLap(st, s, key, admitted); }
    case Adopt(s, key) => if Handshaking(st, s) { AdoptFirstLap(lim, st, s, key, admitted); }
    case Remove(s) => if s in st.live { RemoveFirstLap(st, s, admitted); }
  }

  lemma InsertFirstLap(st: State, s: Session, admitted: nat)
    requires FirstLap(st, admitted) && CanInsert(st, s)
    ensures FirstLap(AfterInsert(st, s), admitted)
  {
  }

  lemma IdentifyFirstLap(st: State, s: Session, key: Point, admitted: nat)
    requires FirstLap(st, admitted) && Handshaking(st, s)
    ensures FirstLap(AfterIdentify(st, s, key), admitted)
  {
  }

  lemma AdoptFirstLap(lim: Limits, st: State, s: Session, key: Point, admitted: nat)
    requires lim.subnet.prefix <= 32 && FirstLap(st, admitted) && Handshaking(st, s)
    ensures FirstLap(AfterAdopt(lim, st, s, key), admitted)
  {
  }

  lemma RemoveFirstLap(st: State, s: Session, admitted: nat)
    requires FirstLap(st, admitted) && s in st.live
    ensures FirstLap(AfterRemove(st, s), admitted)
  {
  }

  lemma {:induction false} FirstTimeRound(lim: Limits, es: seq<Event>)
    requires lim.subnet.prefix <= 32 && Admissions(lim, Empty(), es) < TWO32
    ensures FirstLap(Run(lim, Empty(), es), Admissions(lim, Empty(), es)) && Unreused(lim, es)
  {
    hide Apply, Admits;
    if es != [] {
      var n := |es| - 1;
      FirstTimeRound(lim, es[..n]);
      StepFirstLap(lim, Run(lim, Empty(), es[..n]), es[n], Admissions(lim, Empty(), es[..n]));
    }
  }

  // ---- When byID is exact ----

  /**
   * Fewer than 2^32 calls have been admitted in all; or else, whenever one is, no call still on its
   * way to its second critical section has been overtaken by more than 2^32 - MaxSessions - C others.
   */
  ghost predicate Spaced(lim: Limits, es: seq<Event>)
    requires lim.subnet.prefix <= 32
  {
    || Admissions(lim, Empty(), es) < TWO32
    || (lim.maxSessions + lim.callers <= TWO32 && Prompt(lim, es, TWO32 - lim.maxSessions - lim.callers))
  }

  lemma SpacedUnreused(lim: Limits, es: seq<Event>)
    requires lim.subnet.prefix <= 32 && Spaced(lim, es)
    ensures Unreused(lim, es)
  {
    hide Prompt, Unreused, Admissions;
    if Admissions(lim, Empty(), es) < TWO32 {
      FirstTimeRound(lim, es);
    } else {
      PromptUnreused(lim, es, TWO32 - lim.maxSessions - lim.callers);
    }
  }

  /** byID holds every live session that was not bumped, and the ids on their way into it are free and different. */
  lemma IdsConsistent(lim: Limits, es: seq<Event>)
    requires lim.subnet.prefix <= 32 && Spaced(lim, es)
    ensures Booked(lim, Run(lim, Empty(), es)) && IdsExact(Run(lim, Empty(), es))
  {
    SpacedUnreused(lim, es);
    UnreusedExact(lim, es);
  }

  /** And nobody is given an id that another call still holds. */
  lemma NotHandedOutAgain(lim: Limits, es: seq<Event>, x: nat)
    requires lim.subnet.prefix <= 32 && Spaced(lim, es + [Admit(x)]) && CanAdmit(lim, Run(lim, Empty(), es), x)
    ensures x !in Run(lim, Empty(), es).pending
  {
    hide Spaced, Run, CanAdmit;
    SpacedUnreused(lim, es + [Admit(x)]);
    assert (es + [Admit(x)])[..|es|] == es;
  }

  lemma {:induction false} PromptMore(lim: Limits, es: seq<Event>, n: nat, m: nat)
    requires lim.subnet.prefix <= 32 && Prompt(lim, es, n) && n <= m
    ensures Prompt(lim, es, m)
  {
    hide Run, Lag, Admits;
    if es != [] {
      PromptMore(lim, es[..|es| - 1], n, m);
    }
  }

  lemma {:induction false} RunSplit(lim: Limits, st: State, a: seq<Event>, b: seq<Event>)
    requires lim.subnet.prefix <= 32
    ensures Run(lim, st, a + b) == Run(lim, Run(lim, st, a), b)
    ensures Admissions(lim, st, a + b) == Admissions(lim, st, a) + Admissions(lim, Run(lim, st, a), b)
  {
    hide Apply, Admits;
    if b == [] {
      assert a + b == a;
    } else {
      var n := |b| - 1;
      assert (a + b)[..|a + b| - 1] == a + b[..n];
      RunSplit(lim, st, a, b[..n]);
    }
  }

  lemma PendingFrom(lim: Limits, st: State, e: Event, x: nat)
    requires lim.subnet.prefix <= 32 && x in Apply(lim, st, e).pending && x !in st.pending
    ensures Admits(lim, st, e) && e.id == x
  {
    hide FirstFreeId;
  }

  lemma {:induction false} NextIdRange(lim: Limits, es: seq<Event>)
    requires lim.subnet.prefix <= 32
    ensures Run(lim, Empty(), es).nextID < TWO32
  {
    if es != [] {
      hide Apply, Advance;
      var n := |es| - 1;
      NextIdRange(lim, es[..n]);
      StepRange(lim, Run(lim, Empty(), es[..n]), es[n]);
    }
  }

  lemma StepRange(lim: Limits, st: State, e: Event)
    requires lim.subnet.prefix <= 32 && st.nextID < TWO32
    ensures Apply(lim, st, e).nextID < TWO32 && (Admits(lim, st, e) ==> 1 <= e.id == Apply(lim, st, e).nextID)
  {
    hide AfterAdopt, AfterRemove, AfterInsert, Advance;
    if Admits(lim, st, e) {
      var d: nat :| d >= 1 && Advance(st.nextID, d) == e.id;
      AdvanceRange(st.nextID, d);
    } else {
      NextIdKept(lim, st, e);
    }
  }

  function Bumped(st: State): set<Session> {
    set s | s in st.live && st.live[s].transferred
  }

  /** byID is one to one with the sessions that were not bumped. */
  lemma {:induction false} IdsCount(byID: map<nat, Session>, live: map<Session, Info>, current: set<Session>)
    requires forall id :: id in byID ==> byID[id] in current
    requires forall s :: s in current ==> s in live && live[s].sid in byID && byID[live[s].sid] == s
    requires forall id :: id in byID ==> byID[id] in live && live[byID[id]].sid == id
    ensures |byID| == |current|
    decreases |current|
  {
    if current == {} {
      assert byID == map[];
    } else {
      var s :| s in current;
      SizeWithout(byID, live[s].sid);
      IdsCount(byID - {live[s].sid}, live, current - {s});
    }
  }

  /** Then the counter Sessions runs ahead of len(byID) by the bumped sessions that are still to be removed. */
  lemma BumpedCounted(lim: Limits, es: seq<Event>)
    requires lim.subnet.prefix <= 32 && Spaced(lim, es)
    ensures var st := Run(lim, Empty(), es); st.sessions == |st.byID| + |Bumped(st)|
  {
    hide *;
    IdsConsistent(lim, es);
    OvershootBounded(lim, es);
    CurrentAndBumped(lim, Run(lim, Empty(), es));
  }

  lemma CurrentAndBumped(lim: Limits, st: State)
    requires lim.subnet.prefix <= 32 && Booked(lim, st) && IdsExact(st) && Limited(lim, st)
    ensures st.sessions == |st.byID| + |Bumped(st)|
  {
    hide AddressesIndexed, KeysIndexed, Sane, Limited;
    IdsCount(st.byID, st.live, st.live.Keys - Bumped(st));
    hide *;
    assert Bumped(st) <= st.live.Keys by { BumpedLive(st); }
    SplitSize(st.live.Keys, Bumped(st));
    LimitedCount(lim, st);
  }

  lemma BumpedLive(st: State)
    ensures Bumped(st) <= st.live.Keys
  {
  }

  lemma LimitedCount(lim: Limits, st: State)
    requires Limited(lim, st)
    ensures st.sessions == |st.live.Keys|
  {
  }

  lemma SplitSize<T>(all: set<T>, part: set<T>)
    requires part <= all
    ensures |all - part| + |part| == |all|
  {
    assert (all - part) + part == all;
  }

  // ---- A packet is looked up by address and sent by id ----

  /** The id is taken by nobody but s, and not on its way to anybody. */
  ghost predicate OnlyFor(st: State, id: nat, s: Session) {
    id !in st.pending && (id in st.byID ==> st.byID[id] == s)
  }

  lemma StepOnlyFor(lim: Limits, st: State, e: Event, admitted: nat, id: nat, s: Session)
    requires lim.subnet.prefix <= 32 && FirstLap(st, admitted) && (Admits(lim, st, e) ==> admitted < IDS)
    requires OnlyFor(st, id, s) && id <= admitted
    ensures OnlyFor(Apply(lim, st, e), id, s)
  {
    hide FirstFreeId, FirstLap;
    StepFirstLap(lim, st, e, admitted);
  }

  lemma {:induction false} RunOnlyFor(lim: Limits, a: seq<Event>, b: seq<Event>, id: nat, s: Session)
    requires lim.subnet.prefix <= 32 && Admissions(lim, Empty(), a + b) < TWO32
    requires OnlyFor(Run(lim, Empty(), a), id, s) && id <= Run(lim, Empty(), a).nextID
    ensures OnlyFor(Run(lim, Empty(), a + b), id, s) && id <= Run(lim, Empty(), a + b).nextID
  {
    hide Apply, Admits, OnlyFor;
    if b == [] {
      assert a + b == a;
    } else {
      var n := |b| - 1;
      var before := a + b[..n];
      assert (a + b)[..|a + b| - 1] == before && (a + b)[|a + b| - 1] == b[n];
      RunOnlyFor(lim, a, b[..n], id, s);
      FirstTimeRound(lim, before);
      StepFirstLap(lim, Run(lim, Empty(), before), b[n], Admissions(lim, Empty(), before));
      StepOnlyFor(lim, Run(lim, Empty(), before), b[n], Admissions(lim, Empty(), before), id, s);
    }
  }

  /**
   * Between LookupIP and Reply anything may happen. Until 2^32 calls have been admitted in all, the
   * packet still goes to the session that held the address when it was looked up, or to none.
   */
  lemma ReplyReaches(lim: Limits, a: seq<Event>, b: seq<Event>, address: nat)
    requires lim.subnet.prefix <= 32 && Admissions(lim, Empty(), a + b) < TWO32 && address in Run(lim, Empty(), a).byIP
    ensures var s, st := Run(lim, Empty(), a).byIP[address], Run(lim, Empty(), a + b);
            && s in Run(lim, Empty(), a).live
            && var id := Run(lim, Empty(), a).live[s].sid;
               id in st.byID ==> st.byID[id] == s
  {
    hide Run, Admissions, KeysIndexed, Sane;
    RunSplit(lim, Empty(), a, b);
    FirstTimeRound(lim, a);
    UnreusedExact(lim, a);
    var st := Run(lim, Empty(), a);
    var s := st.byIP[address];
    RunOnlyFor(lim, a, b, st.live[s].sid, s);
  }
}
