/** Runs that reach the bounds: overshoot, ids coming round again, and what they do to byID. */
module IdRuns {
  import opened Bytes
  import opened NoiseXK
  import opened AddressPool
  import opened RegistrySpec
  import opened IdSpace

  // ---- Sessions that stay, come and go, without ever finishing a handshake ----

  ghost predicate Apart(held: set<Session>) {
    forall s, t :: s in held && t in held && s.sid == t.sid ==> s == t
  }

  function Ids(held: set<Session>): set<nat> {
    set s | s in held :: s.sid
  }

  ghost function Owner(held: set<Session>, id: nat): Session
    requires id in Ids(held)
  {
    var s :| s in held && s.sid == id;
    s
  }

  ghost function ById(held: set<Session>): map<nat, Session> {
    map id | id in Ids(held) :: Owner(held, id)
  }

  ghost function Live(held: set<Session>): map<Session, Info> {
    map s | s in held :: Info(s.sid, None, None, false)
  }

  /** The sessions `held` are in, the ids `pending` are on their way in, and n was handed out last. */
  ghost function Idle(held: set<Session>, pending: multiset<nat>, n: nat): State
    requires Apart(held)
  {
    State(ById(held), map[], map[], {}, n, Live(held), pending, |held|)
  }

  lemma ByIdSize(held: set<Session>)
    requires Apart(held)
    ensures |ById(held)| == |held| && ById(held).Keys == Ids(held)
  {
    IdsCount(ById(held), Live(held), held);
  }

  /** One more. */
  lemma With(held: set<Session>, s: Session)
    requires Apart(held) && s.sid !in Ids(held)
    ensures s !in held && Apart(held + {s}) && s !in Live(held) && |held + {s}| == |held| + 1
    ensures ById(held)[s.sid := s] == ById(held + {s})
    ensures Live(held)[s := Info(s.sid, None, None, false)] == Live(held + {s})
  {
    assert forall t :: t in held ==> t.sid in Ids(held);
    Owners(held);
    Owners(held + {s});
  }

  lemma Owners(held: set<Session>)
    requires Apart(held)
    ensures forall s :: s in held ==> s.sid in Ids(held) && Owner(held, s.sid) == s
  {
  }

  /** One less. */
  lemma Without(held: set<Session>, s: Session)
    requires Apart(held) && s in held
    ensures Apart(held - {s}) && s.sid in ById(held) && ById(held)[s.sid] == s && |held - {s}| == |held| - 1
    ensures s in Live(held) && Live(held)[s] == Info(s.sid, None, None, false)
    ensures ById(held) - {s.sid} == ById(held - {s}) && Live(held) - {s} == Live(held - {s})
  {
    Owners(held);
    Owners(held - {s});
  }

  lemma IdleAdmits(lim: Limits, held: set<Session>, pending: multiset<nat>, n: nat, id: nat)
    requires lim.subnet.prefix <= 32 && Apart(held) && |held| < lim.maxSessions && |pending| < lim.callers
    requires FirstFreeId(Ids(held), n, id)
    ensures Admits(lim, Idle(held, pending, n), Admit(id))
    ensures Apply(lim, Idle(held, pending, n), Admit(id)) == Idle(held, pending + multiset{id}, id)
  {
    hide FirstFreeId, ById, Live, Ids, Apart;
    ByIdSize(held);
  }

  lemma IdleInserts(lim: Limits, held: set<Session>, pending: multiset<nat>, n: nat, s: Session)
    requires lim.subnet.prefix <= 32 && Apart(held) && s.sid in pending && s.sid !in Ids(held)
    ensures s !in held && Apart(held + {s})
    ensures Apply(lim, Idle(held, pending, n), Insert(s)) == Idle(held + {s}, pending - multiset{s.sid}, n)
  {
    hide ById, Live, Ids, Apart;
    With(held, s);
  }

  lemma IdleRemoves(lim: Limits, held: set<Session>, pending: multiset<nat>, n: nat, s: Session)
    requires lim.subnet.prefix <= 32 && Apart(held) && s in held
    ensures Apart(held - {s})
    ensures Apply(lim, Idle(held, pending, n), Remove(s)) == Idle(held - {s}, pending, n)
  {
    hide ById, Live, Apart;
    Without(held, s);
  }

  // ---- What a run has reached, how many it admitted, and how far its waiting calls lag ----

  /**
   * Of the calls on their way in, the one that holds the id x lags by at most `own`, every other by at most
   * `other`.
   */
  datatype Place = Place(held: set<Session>, pending: multiset<nat>, last: nat, own: nat, other: nat, admitted: nat) {

    function Bound(x: nat, z: nat): nat { if z == x then own else other }

    function Admitting(x: nat, id: nat): Place {
      Place(held, pending + multiset{id}, id, if x in pending then own + 1 else 0, other + 1, admitted + 1)
    }

    function Inserting(s: Session): Place {
      this.(held := held + {s}, pending := pending - multiset{s.sid})
    }

    function Removing(s: Session): Place {
      this.(held := held - {s})
    }

    /** After k more calls have come and gone. */
    function Later(k: nat): Place {
      this.(last := last + k, own := own + k, other := other + k, admitted := admitted + k)
    }
  }

  /** The run es gets to p, and no call was ever overtaken by more than `top` others when one was admitted. */
  ghost predicate Stage(lim: Limits, top: nat, x: nat, es: seq<Event>, p: Place)
    requires lim.subnet.prefix <= 32
  {
    && Apart(p.held) && Run(lim, Empty(), es) == Idle(p.held, p.pending, p.last)
    && Admissions(lim, Empty(), es) == p.admitted && Prompt(lim, es, top)
    && forall z :: z in p.pending ==> Lag(lim, es, z) <= p.Bound(x, z)
  }

  /** There is room for another call, and nobody will have been overtaken by more than `top`. */
  ghost predicate Room(lim: Limits, top: nat, x: nat, p: Place) {
    |p.held| < lim.maxSessions && |p.pending| < lim.callers && forall z :: z in p.pending ==> p.Bound(x, z) <= top
  }

  /** What one more event does to all these. */
  lemma OneMore(lim: Limits, es: seq<Event>, e: Event, top: nat)
    requires lim.subnet.prefix <= 32
    ensures var st := Run(lim, Empty(), es);
            && Run(lim, Empty(), es + [e]) == Apply(lim, st, e)
            && Admissions(lim, Empty(), es + [e])
               == Admissions(lim, Empty(), es) + (if Admits(lim, st, e) then 1 else 0)
            && (Prompt(lim, es + [e], top) <==>
                  && Prompt(lim, es, top)
                  && (Admits(lim, st, e) ==> forall z :: z in st.pending ==> Lag(lim, es, z) <= top))
            && forall z :: Lag(lim, es + [e], z)
                           == if z !in st.pending then 0 else Lag(lim, es, z) + if Admits(lim, st, e) then 1 else 0
  {
    hide Apply, Admits;
    assert (es + [e])[..|es|] == es;
  }

  lemma Starts(lim: Limits, top: nat, x: nat)
    requires lim.subnet.prefix <= 32
    ensures Stage(lim, top, x, [], Place({}, multiset{}, 0, 0, 0, 0))
  {
  }

  lemma IdlePending(held: set<Session>, pending: multiset<nat>, n: nat)
    requires Apart(held)
    ensures Idle(held, pending, n).pending == pending
  {
  }

  lemma StageAdmit(lim: Limits, top: nat, x: nat, es: seq<Event>, p: Place, id: nat)
    requires lim.subnet.prefix <= 32 && Stage(lim, top, x, es, p) && Room(lim, top, x, p)
    requires FirstFreeId(Ids(p.held), p.last, id)
    ensures Stage(lim, top, x, es + [Admit(id)], p.Admitting(x, id))
  {
    hide Idle, Run, Apply, Admissions, Prompt, Lag, Admits, FirstFreeId, Ids;
    OneMore(lim, es, Admit(id), top);
    IdlePending(p.held, p.pending, p.last);
    IdleAdmits(lim, p.held, p.pending, p.last, id);
  }

  lemma StageInsert(lim: Limits, top: nat, x: nat, es: seq<Event>, p: Place, s: Session)
    requires lim.subnet.prefix <= 32 && Stage(lim, top, x, es, p) && s.sid in p.pending && s.sid !in Ids(p.held)
    ensures Stage(lim, top, x, es + [Insert(s)], p.Inserting(s))
  {
    hide Idle, Run, Apply, Admissions, Prompt, Lag, Ids;
    OneMore(lim, es, Insert(s), top);
    IdlePending(p.held, p.pending, p.last);
    IdleInserts(lim, p.held, p.pending, p.last, s);
  }

  lemma StageRemove(lim: Limits, top: nat, x: nat, es: seq<Event>, p: Place, s: Session)
    requires lim.subnet.prefix <= 32 && Stage(lim, top, x, es, p) && s in p.held
    ensures Stage(lim, top, x, es + [Remove(s)], p.Removing(s))
  {
    hide Idle, Run, Apply, Admissions, Prompt, Lag;
    OneMore(lim, es, Remove(s), top);
    IdlePending(p.held, p.pending, p.last);
    IdleRemoves(lim, p.held, p.pending, p.last, s);
  }

  lemma Looser(lim: Limits, top: nat, x: nat, es: seq<Event>, p: Place, own: nat, other: nat)
    requires lim.subnet.prefix <= 32 && Stage(lim, top, x, es, p)
    requires (x in p.pending ==> p.own <= own) && forall z :: z in p.pending && z != x ==> p.other <= other
    ensures Stage(lim, top, x, es, p.(own := own, other := other))
  {
    hide Idle, Run, Admissions, Prompt, Lag;
  }

  /** A session comes in. */
  lemma ComeIn(lim: Limits, top: nat, x: nat, es: seq<Event>, p: Place, s: Session)
    requires lim.subnet.prefix <= 32 && Stage(lim, top, x, es, p) && Room(lim, top, x, p)
    requires FirstFreeId(Ids(p.held), p.last, s.sid)
    ensures Stage(lim, top, x, es + [Admit(s.sid), Insert(s)], p.Later(1).(last := s.sid, held := p.held + {s}))
  {
    assert s.sid !in Ids(p.held);
    hide Stage, FirstFreeId, Ids, Room;
    StageAdmit(lim, top, x, es, p, s.sid);
    var q := p.Admitting(x, s.sid);
    StageInsert(lim, top, x, es + [Admit(s.sid)], q, s);
    BackOut(p.pending, s.sid);
    Looser(lim, top, x, es + [Admit(s.sid)] + [Insert(s)], q.Inserting(s), p.own + 1, p.other + 1);
    AppendTwo(es, Admit(s.sid), Insert(s));
  }

  lemma BackOut(m: multiset<nat>, id: nat)
    ensures m + multiset{id} - multiset{id} == m
  {
  }

  lemma AppendTwo(es: seq<Event>, a: Event, b: Event)
    ensures es + [a] + [b] == es + [a, b]
  {
  }

  /** A session comes and goes. */
  lemma ComeAndGo(lim: Limits, top: nat, x: nat, es: seq<Event>, p: Place, s: Session)
    requires lim.subnet.prefix <= 32 && Stage(lim, top, x, es, p) && Room(lim, top, x, p)
    requires FirstFreeId(Ids(p.held), p.last, s.sid)
    ensures Stage(lim, top, x, es + [Admit(s.sid), Insert(s), Remove(s)], p.Later(1).(last := s.sid))
  {
    assert s.sid !in Ids(p.held);
    NotHeld(p.held, s);
    hide *;
    ComeIn(lim, top, x, es, p, s);
    var q := p.Later(1).(last := s.sid, held := p.held + {s});
    StageRemove(lim, top, x, es + [Admit(s.sid), Insert(s)], q, s);
    GoneAgain(p, s);
    AppendThree(es, Admit(s.sid), Insert(s), Remove(s));
  }

  lemma GoneAgain(p: Place, s: Session)
    requires s !in p.held
    ensures p.Later(1).(last := s.sid, held := p.held + {s}).Removing(s) == p.Later(1).(last := s.sid)
  {
    assert p.held + {s} - {s} == p.held;
  }

  lemma AppendThree(es: seq<Event>, a: Event, b: Event, c: Event)
    ensures es + [a, b] + [c] == es + [a, b, c]
  {
  }

  lemma NotHeld(held: set<Session>, s: Session)
    requires s.sid !in Ids(held)
    ensures s !in held
  {
  }

  // ---- Sessions in the order of their ids ----

  ghost predicate InOrder(ss: seq<Session>, n: nat) {
    forall i :: 0 <= i < |ss| ==> ss[i].sid == n + 1 + i
  }

  function All(ss: seq<Session>): set<Session> {
    set s | s in ss
  }

  lemma {:induction false} AllInOrder(ss: seq<Session>, n: nat)
    requires InOrder(ss, n)
    ensures Apart(All(ss)) && |All(ss)| == |ss|
    ensures forall id :: id in Ids(All(ss)) <==> n + 1 <= id <= n + |ss|
  {
    forall id | n + 1 <= id <= n + |ss|
      ensures id in Ids(All(ss))
    {
      assert ss[id - n - 1] in All(ss) && ss[id - n - 1].sid == id;
    }
    if ss != [] {
      var k := |ss| - 1;
      AllInOrder(ss[..k], n);
      assert All(ss) == All(ss[..k]) + {ss[k]};
      assert ss[k] !in All(ss[..k]);
    }
  }

  lemma {:induction false} AdvanceStraight(n: nat, k: nat)
    requires n + k <= IDS
    ensures Advance(n, k) == n + k
  {
    if k != 0 {
      AdvanceStraight(n, k - 1);
    }
  }

  /** Over k - 1 taken ids to a free one. */
  lemma FreeAfter(ids: set<nat>, n: nat, k: nat)
    requires 1 <= k && n + k <= IDS && n + k !in ids && forall id :: n < id < n + k ==> id in ids
    ensures FirstFreeId(ids, n, n + k)
  {
    hide Advance;
    AdvanceStraight(n, k);
    forall j | 1 <= j < k
      ensures Advance(n, j) in ids
    {
      AdvanceStraight(n, j);
    }
  }

  lemma {:induction false} AdvanceWraps(k: nat)
    requires 1 <= k <= IDS
    ensures Advance(IDS, k) == k
  {
    assert Advance(IDS, 0) == IDS;
    if k > 1 {
      AdvanceWraps(k - 1);
    }
  }

  lemma FreeAfterWrap(ids: set<nat>, k: nat)
    requires 1 <= k <= IDS && k !in ids && forall id :: 1 <= id < k ==> id in ids
    ensures FirstFreeId(ids, IDS, k)
  {
    hide Advance;
    AdvanceWraps(k);
    forall j | 1 <= j < k
      ensures Advance(IDS, j) in ids
    {
      AdvanceWraps(j);
    }
  }

  // ---- Many at a time ----

  /** Each of the sessions comes and stays. */
  function Fills(ss: seq<Session>): seq<Event> {
    if ss == [] then [] else Fills(ss[..|ss| - 1]) + [Admit(ss[|ss| - 1].sid), Insert(ss[|ss| - 1])]
  }

  lemma {:induction false} StageFills(lim: Limits, top: nat, x: nat, ss: seq<Session>)
    requires lim.subnet.prefix <= 32 && InOrder(ss, 0) && |ss| <= lim.maxSessions && lim.callers >= 1 && |ss| <= IDS
    ensures Stage(lim, top, x, Fills(ss), Place(All(ss), multiset{}, |ss|, 0, 0, |ss|))
  {
    hide *;
    if ss == [] {
      AllNone();
      Starts(lim, top, x);
    } else {
      var k := |ss| - 1;
      var before, s := ss[..k], ss[k];
      InOrderBut(ss, 0);
      StageFills(lim, top, x, before);
      AllInOrder(before, 0);
      FreeAfter(Ids(All(before)), k, 1);
      AllLast(ss);
      FillsLast(ss);
      LastInOrder(ss, 0);
      var p := Place(All(before), multiset{}, k, 0, 0, k);
      RoomWithNone(lim, top, x, p);
      LaterIs(p, 1);
      ComeIn(lim, top, x, Fills(before), p, s);
      Looser(lim, top, x, Fills(ss), Place(All(ss), multiset{}, k + 1, 1, 1, k + 1), 0, 0);
    }
  }

  lemma AllNone()
    ensures All([]) == {} && Fills([]) == []
  {
  }

  lemma FillsLast(ss: seq<Session>)
    requires ss != []
    ensures Fills(ss) == Fills(ss[..|ss| - 1]) + [Admit(ss[|ss| - 1].sid), Insert(ss[|ss| - 1])]
  {
  }

  lemma LastInOrder(ss: seq<Session>, n: nat)
    requires ss != [] && InOrder(ss, n)
    ensures ss[|ss| - 1].sid == n + |ss|
  {
  }

  lemma AllLast(ss: seq<Session>)
    requires ss != []
    ensures All(ss) == All(ss[..|ss| - 1]) + {ss[|ss| - 1]}
  {
  }

  /** Each of the sessions comes and goes, one after the other. */
  function Laps(ss: seq<Session>): seq<Event> {
    if ss == [] then [] else
      var s := ss[|ss| - 1];
      Laps(ss[..|ss| - 1]) + [Admit(s.sid), Insert(s), Remove(s)]
  }

  lemma {:induction false} StageLaps(lim: Limits, top: nat, x: nat, es: seq<Event>, p: Place, ss: seq<Session>)
    requires lim.subnet.prefix <= 32 && Stage(lim, top, x, es, p) && InOrder(ss, p.last) && p.last + |ss| <= IDS
    requires forall id :: id in Ids(p.held) ==> !(p.last < id <= p.last + |ss|)
    requires ss != [] ==> Room(lim, top, x, p.Later(|ss| - 1))
    ensures Stage(lim, top, x, es + Laps(ss), p.Later(|ss|))
  {
    hide *;
    LapsLast(es, ss);
    LaterIs(p, |ss|);
    if ss != [] {
      var k := |ss| - 1;
      LaterIs(p, k);
      InOrderBut(ss, p.last);
      LastInOrder(ss, p.last);
      RoomBefore(lim, top, x, p, k);
      StageLaps(lim, top, x, es, p, ss[..k]);
      FreeAfter(Ids(p.held), p.last + k, 1);
      ComeAndGo(lim, top, x, es + Laps(ss[..k]), p.Later(k), ss[k]);
      LaterIs(p.Later(k), 1);
    }
  }

  lemma LapsLast(es: seq<Event>, ss: seq<Session>)
    ensures es + Laps(ss) == if ss == [] then es else
              var s := ss[|ss| - 1]; es + Laps(ss[..|ss| - 1]) + [Admit(s.sid), Insert(s), Remove(s)]
  {
  }

  lemma RoomBefore(lim: Limits, top: nat, x: nat, p: Place, k: nat)
    requires Room(lim, top, x, p.Later(k))
    ensures k > 0 ==> Room(lim, top, x, p.Later(k - 1))
  {
  }

  /** The ids after n are handed out to k calls that all stall. */
  function Stalls(n: nat, k: nat): seq<Event> {
    if k == 0 then [] else Stalls(n, k - 1) + [Admit(n + k)]
  }

  function IdsFrom(n: nat, k: nat): multiset<nat> {
    if k == 0 then multiset{} else IdsFrom(n, k - 1) + multiset{n + k}
  }

  lemma {:induction false} IdsFromSize(n: nat, k: nat)
    ensures |IdsFrom(n, k)| == k && forall id :: id in IdsFrom(n, k) <==> n < id <= n + k
  {
    if k != 0 {
      IdsFromSize(n, k - 1);
    }
  }

  lemma IdsFromCount(n: nat, k: nat)
    ensures |IdsFrom(n, k)| == k
  {
    IdsFromSize(n, k);
  }

  /** Room for the next call to stall. */
  lemma RoomToStall(lim: Limits, top: nat, x: nat, held: set<Session>, n: nat, k: nat, admitted: nat)
    requires |held| < lim.maxSessions && k < lim.callers && k <= top && !(n < x <= n + k)
    ensures Room(lim, top, x, Place(held, IdsFrom(n, k), n + k, 0, k, admitted)) && x !in IdsFrom(n, k)
  {
    IdsFromSize(n, k);
  }

  /** Nobody was waiting; of k that now are, none has been overtaken by k others. */
  lemma {:induction false} StageStalls(lim: Limits, top: nat, x: nat, es: seq<Event>, held: set<Session>, n: nat,
                                       k: nat, admitted: nat)
    requires lim.subnet.prefix <= 32 && Stage(lim, top, x, es, Place(held, multiset{}, n, 0, 0, admitted))
    requires |held| < lim.maxSessions && k <= lim.callers && k <= top + 1 && n + k <= IDS && !(n < x < n + k)
    requires forall id :: id in Ids(held) ==> !(n < id <= n + k)
    ensures Stage(lim, top, x, es + Stalls(n, k), Place(held, IdsFrom(n, k), n + k, 0, k, admitted + k))
  {
    hide *;
    StallsLast(es, n, k);
    if k > 0 {
      StageStalls(lim, top, x, es, held, n, k - 1, admitted);
      RoomToStall(lim, top, x, held, n, k - 1, admitted + k - 1);
      FreeAfter(Ids(held), n + k - 1, 1);
      var p := Place(held, IdsFrom(n, k - 1), n + k - 1, 0, k - 1, admitted + k - 1);
      StageAdmit(lim, top, x, es + Stalls(n, k - 1), p, n + k);
      Stalled(x, p, n + k);
    }
  }

  lemma StallsLast(es: seq<Event>, n: nat, k: nat)
    ensures es + Stalls(n, k) == if k == 0 then es else es + Stalls(n, k - 1) + [Admit(n + k)]
    ensures IdsFrom(n, k) == if k == 0 then multiset{} else IdsFrom(n, k - 1) + multiset{n + k}
  {
  }

  lemma Stalled(x: nat, p: Place, id: nat)
    requires x !in p.pending
    ensures p.Admitting(x, id) == Place(p.held, p.pending + multiset{id}, id, 0, p.other + 1, p.admitted + 1)
  {
  }

  function Inserts(ss: seq<Session>): seq<Event> {
    seq(|ss|, i requires 0 <= i < |ss| => Insert(ss[i]))
  }

  function Removes(ss: seq<Session>): seq<Event> {
    seq(|ss|, i requires 0 <= i < |ss| => Remove(ss[i]))
  }

  /** The stalled calls with the ids after n get their sessions in. */
  lemma {:induction false} StageInserts(lim: Limits, top: nat, x: nat, es: seq<Event>, p: Place, ss: seq<Session>,
                                        n: nat)
    requires lim.subnet.prefix <= 32 && Stage(lim, top, x, es, p) && InOrder(ss, n) && IdsFrom(n, |ss|) <= p.pending
    requires forall id :: id in Ids(p.held) ==> !(n < id <= n + |ss|)
    ensures Stage(lim, top, x, es + Inserts(ss), p.(held := p.held + All(ss), pending := p.pending - IdsFrom(n, |ss|)))
  {
    hide *;
    InsertsNone(es, p, n);
    if ss != [] {
      var k := |ss| - 1;
      StillPending(p.pending, n, k);
      InOrderBut(ss, n);
      StageInserts(lim, top, x, es, p, ss[..k], n);
      NotInYet(p.held, ss, n);
      InsertLast(lim, top, x, es + Inserts(ss[..k]), p, ss, n);
      InsertsLast(ss);
      assert es + Inserts(ss[..k]) + [Insert(ss[k])] == es + Inserts(ss);
    }
  }

  lemma InsertsNone(es: seq<Event>, p: Place, n: nat)
    ensures es + Inserts([]) == es && p.(held := p.held + All([]), pending := p.pending - IdsFrom(n, 0)) == p
  {
    assert p.held + All([]) == p.held && p.pending - IdsFrom(n, 0) == p.pending;
  }

  lemma InOrderBut(ss: seq<Session>, n: nat)
    requires ss != [] && InOrder(ss, n)
    ensures InOrder(ss[..|ss| - 1], n)
  {
  }

  lemma InsertLast(lim: Limits, top: nat, x: nat, es: seq<Event>, p: Place, ss: seq<Session>, n: nat)
    requires lim.subnet.prefix <= 32 && ss != [] && InOrder(ss, n) && IdsFrom(n, |ss|) <= p.pending
    requires var before := ss[..|ss| - 1];
             && Stage(lim, top, x, es, p.(held := p.held + All(before), pending := p.pending - IdsFrom(n, |ss| - 1)))
             && ss[|ss| - 1].sid !in Ids(p.held + All(before))
    ensures Stage(lim, top, x, es + [Insert(ss[|ss| - 1])],
                  p.(held := p.held + All(ss), pending := p.pending - IdsFrom(n, |ss|)))
  {
    var k := |ss| - 1;
    var before, s := ss[..k], ss[k];
    hide *;
    InsertedLast(p, ss, n);
    StageInsert(lim, top, x, es, p.(held := p.held + All(before), pending := p.pending - IdsFrom(n, k)), s);
  }

  lemma InsertedLast(p: Place, ss: seq<Session>, n: nat)
    requires ss != [] && InOrder(ss, n) && IdsFrom(n, |ss|) <= p.pending
    ensures var k := |ss| - 1;
            var q := p.(held := p.held + All(ss[..k]), pending := p.pending - IdsFrom(n, k));
            && ss[k].sid in q.pending
            && q.Inserting(ss[k]) == p.(held := p.held + All(ss), pending := p.pending - IdsFrom(n, |ss|))
  {
    hide All, IdsFrom;
    var k := |ss| - 1;
    StillPending(p.pending, n, k);
    AllLast(ss);
    assert p.held + All(ss[..k]) + {ss[k]} == p.held + All(ss);
  }

  lemma NotInYet(held: set<Session>, ss: seq<Session>, n: nat)
    requires ss != [] && InOrder(ss, n) && forall id :: id in Ids(held) ==> !(n < id <= n + |ss|)
    ensures ss[|ss| - 1].sid !in Ids(held + All(ss[..|ss| - 1]))
  {
    IdsUnion(held, All(ss[..|ss| - 1]));
    AllInOrder(ss[..|ss| - 1], n);
  }

  lemma InsertsLast(ss: seq<Session>)
    requires ss != []
    ensures Inserts(ss) == Inserts(ss[..|ss| - 1]) + [Insert(ss[|ss| - 1])]
  {
  }

  lemma StillPending(pending: multiset<nat>, n: nat, k: nat)
    requires IdsFrom(n, k + 1) <= pending
    ensures IdsFrom(n, k) <= pending && n + k + 1 in pending - IdsFrom(n, k)
    ensures pending - IdsFrom(n, k) - multiset{n + k + 1} == pending - IdsFrom(n, k + 1)
  {
    IdsFromSize(n, k);
  }

  lemma IdsUnion(a: set<Session>, b: set<Session>)
    ensures Ids(a + b) == Ids(a) + Ids(b)
  {
  }

  lemma {:induction false} StageRemoves(lim: Limits, top: nat, x: nat, es: seq<Event>, p: Place, ss: seq<Session>,
                                        n: nat)
    requires lim.subnet.prefix <= 32 && Stage(lim, top, x, es, p) && All(ss) <= p.held && InOrder(ss, n)
    ensures Stage(lim, top, x, es + Removes(ss), p.(held := p.held - All(ss)))
  {
    hide Stage;
    if ss == [] {
      assert es + Removes(ss) == es && p.held - All(ss) == p.held;
    } else {
      var k := |ss| - 1;
      var before, s := ss[..k], ss[k];
      assert All(before) <= All(ss) && s in All(ss);
      StageRemoves(lim, top, x, es, p, before, n);
      assert s !in All(before);
      StageRemove(lim, top, x, es + Removes(before), p.(held := p.held - All(before)), s);
      assert p.held - All(before) - {s} == p.held - All(ss);
      assert es + Removes(before) + [Remove(s)] == es + Removes(ss);
    }
  }

  // ---- Pieces of a run ----

  /** Every id's session, in order. */
  ghost predicate Everyone(ss: seq<Session>) {
    |ss| <= IDS && InOrder(ss, 0)
  }

  lemma Slice(ss: seq<Session>, i: nat, j: nat)
    requires Everyone(ss) && i <= j <= |ss|
    ensures InOrder(ss[i..j], i) && |All(ss[i..j])| == |ss[i..j]| == j - i && |ss| <= IDS
    ensures forall id :: id in Ids(All(ss[i..j])) <==> i < id <= j
  {
    AllInOrder(ss[i..j], i);
  }

  lemma RoomWithNone(lim: Limits, top: nat, x: nat, p: Place)
    requires |p.held| < lim.maxSessions && p.pending == multiset{} && lim.callers >= 1
    ensures Room(lim, top, x, p)
  {
  }

  lemma RoomWithOne(lim: Limits, top: nat, x: nat, p: Place)
    requires |p.held| < lim.maxSessions && p.pending == multiset{x} && lim.callers >= 2 && p.own <= top
    ensures Room(lim, top, x, p)
  {
  }

  lemma RoomWithMany(lim: Limits, top: nat, x: nat, p: Place)
    requires |p.held| < lim.maxSessions && |p.pending| < lim.callers && p.own <= top && p.other <= top
    ensures Room(lim, top, x, p)
  {
  }

  /** After the sessions ss have come and stayed, others come and go. */
  lemma FillAndLap(lim: Limits, top: nat, x: nat, ss: seq<Session>, m: nat, v: nat)
    requires lim.subnet.prefix <= 32 && Everyone(ss) && m <= v <= |ss| && m < lim.maxSessions && lim.callers >= 1
    ensures Stage(lim, top, x, Fills(ss[..m]) + Laps(ss[m..v]), Place(All(ss[..m]), multiset{}, v, 0, 0, v))
  {
    hide *;
    Slice(ss, 0, m);
    Slice(ss, m, v);
    Head(ss, m);
    StageFills(lim, top, x, ss[..m]);
    var p := Place(All(ss[..m]), multiset{}, m, 0, 0, m);
    FillRoom(lim, top, x, p, v - m);
    StageLaps(lim, top, x, Fills(ss[..m]), p, ss[m..v]);
    Looser(lim, top, x, Fills(ss[..m]) + Laps(ss[m..v]), p.Later(v - m), 0, 0);
    LaterIs(p, v - m);
  }

  lemma Head(ss: seq<Session>, m: nat)
    requires m <= |ss|
    ensures ss[0..m] == ss[..m]
  {
  }

  lemma LaterIs(p: Place, k: nat)
    ensures p.Later(k) == Place(p.held, p.pending, p.last + k, p.own + k, p.other + k, p.admitted + k)
  {
  }

  lemma FillRoom(lim: Limits, top: nat, x: nat, p: Place, k: nat)
    requires |p.held| < lim.maxSessions && p.pending == multiset{} && lim.callers >= 1
    ensures k > 0 ==> Room(lim, top, x, p.Later(k - 1))
    ensures p.Later(k).pending == p.pending
  {
  }

  // ---- The overshoot is reached ----

  /** All places but one are filled; then C calls take an id before any of them gets its session in. */
  function OvershootRun(lim: Limits, ss: seq<Session>): seq<Event>
    requires lim.maxSessions >= 1 && lim.callers >= 1 && |ss| == lim.maxSessions + lim.callers - 1
  {
    var m := lim.maxSessions - 1;
    Fills(ss[..m]) + Stalls(m, lim.callers) + Inserts(ss[m..])
  }

  /** C concurrent calls do bring byID to MaxSessions + C - 1 sessions. */
  lemma OvershootReached(lim: Limits, ss: seq<Session>)
    requires lim.subnet.prefix <= 32 && lim.maxSessions >= 1 && lim.callers >= 1
    requires |ss| == lim.maxSessions + lim.callers - 1 && Everyone(ss)
    ensures |Run(lim, Empty(), OvershootRun(lim, ss)).byID| == lim.maxSessions + lim.callers - 1
  {
    var m, c := lim.maxSessions - 1, lim.callers;
    hide *;
    var stay, stall := ss[..m], ss[m..];
    assert |stall| == c;
    OvershootRunIs(lim, ss);
    AllSplit(ss, m);
    Slice(ss, 0, m);
    Slice(ss, m, |ss|);
    Slice(ss, 0, |ss|);
    Head(ss, m);
    StageFills(lim, c, 0, stay);
    StageStalls(lim, c, 0, Fills(stay), All(stay), m, c, m);
    var p := Place(All(stay), IdsFrom(m, c), m + c, 0, c, m + c);
    StageInserts(lim, c, 0, Fills(stay) + Stalls(m, c), p, stall, m);
    StageSize(lim, c, 0, OvershootRun(lim, ss), p.(held := All(ss), pending := p.pending - IdsFrom(m, c)));
  }

  lemma OvershootRunIs(lim: Limits, ss: seq<Session>)
    requires lim.maxSessions >= 1 && lim.callers >= 1 && |ss| == lim.maxSessions + lim.callers - 1
    ensures var m := lim.maxSessions - 1;
            OvershootRun(lim, ss) == Fills(ss[..m]) + Stalls(m, lim.callers) + Inserts(ss[m..])
  {
    hide Fills, Stalls, Inserts;
  }

  lemma AllSplit(ss: seq<Session>, m: nat)
    requires m <= |ss|
    ensures All(ss[..m]) + All(ss[m..]) == All(ss) && ss[m..|ss|] == ss[m..] && ss[0..|ss|] == ss
  {
    assert ss[..m] + ss[m..] == ss;
  }

  lemma StageSize(lim: Limits, top: nat, x: nat, es: seq<Event>, p: Place)
    requires lim.subnet.prefix <= 32 && Stage(lim, top, x, es, p)
    ensures |Run(lim, Empty(), es).byID| == |p.held|
  {
    ByIdSize(p.held);
  }

  // ---- An id comes round again ----

  /** Two sessions under one id: the one inserted first is live and in byID nowhere. */
  lemma Loses(lim: Limits, top: nat, x: nat, es: seq<Event>, p: Place, s: Session, t: Session)
    requires lim.subnet.prefix <= 32 && Stage(lim, top, x, es, p) && s in p.held
    requires s != t && s.sid == t.sid && t.sid in p.pending
    ensures var st := Run(lim, Empty(), es + [Insert(t)]);
            && Current(st, s) && Current(st, t) && t.sid in st.byID && st.byID[t.sid] == t && !IdsComplete(st)
    ensures Prompt(lim, es + [Insert(t)], top) && Admissions(lim, Empty(), es + [Insert(t)]) == p.admitted
  {
    hide Run, Prompt, Lag, Admissions, Admits, CanAdmit;
    OneMore(lim, es, Insert(t), top);
    NoAdmission(lim, Run(lim, Empty(), es), t);
    var st := Idle(p.held, p.pending, p.last);
    assert CanInsert(st, t);
    assert Current(AfterInsert(st, t), s);
  }

  lemma NoAdmission(lim: Limits, st: State, t: Session)
    ensures !Admits(lim, st, Insert(t))
  {
  }

  /** A call stalls with id 1 in its hands while every other id is handed out in turn; then 1 comes round again. */
  function LongRun(ss: seq<Session>, t: Session): seq<Event>
    requires |ss| >= 1
  {
    [Admit(1)] + Laps(ss[1..]) + [Admit(1)] + [Insert(ss[0])] + [Insert(t)]
  }

  /** It takes 2^32 admissions, and with two callers and room for one session it can happen. */
  lemma LongRunLoses(lim: Limits, ss: seq<Session>, t: Session)
    requires lim.subnet.prefix <= 32 && lim.maxSessions >= 1 && lim.callers >= 2
    requires |ss| == IDS && Everyone(ss) && t.sid == 1 && t != ss[0]
    ensures Admissions(lim, Empty(), LongRun(ss, t)) == TWO32
    ensures var st := Run(lim, Empty(), LongRun(ss, t)); Current(st, ss[0]) && Current(st, t) && !IdsComplete(st)
  {
    var none: set<Session> := {};
    var one := multiset{1};
    assert Ids(none) == {} && forall id :: id !in Ids(none);
    FreeAfter(Ids(none), 0, 1);
    FreeAfterWrap(Ids(none), 1);
    Starts(lim, TWO32, 1);
    hide Stage, Ids, FirstFreeId, Laps, Run, Admissions, IdsComplete;
    var p := Place(none, multiset{}, 0, 0, 0, 0);
    StageAdmit(lim, TWO32, 1, [], p, 1);
    var p1 := Place(none, one, 1, 0, 1, 1);
    assert p.Admitting(1, 1) == p1 && [] + [Admit(1)] == [Admit(1)];
    StageLaps(lim, TWO32, 1, [Admit(1)], p1, ss[1..]);
    TwiceAndLost(lim, TWO32, [Admit(1)] + Laps(ss[1..]), p1.Later(IDS - 1), ss[0], t);
  }

  /**
   * byID is exact in all runs that admit at most n calls if and only if n is less than 2^32, whatever
   * MaxSessions and the number of concurrent calls; `ss` and `t` are sessions to make such a run of.
   */
  lemma ExactIffFew(lim: Limits, n: nat, ss: seq<Session>, t: Session)
    requires lim.subnet.prefix <= 32 && lim.maxSessions >= 1 && lim.callers >= 2
    requires |ss| == IDS && Everyone(ss) && t.sid == 1 && t != ss[0]
    ensures (forall es :: Admissions(lim, Empty(), es) <= n ==> IdsComplete(Run(lim, Empty(), es))) <==> n < TWO32
  {
    hide Admissions, Run, IdsComplete, Booked, Unreused;
    if n < TWO32 {
      forall es | Admissions(lim, Empty(), es) <= n
        ensures IdsComplete(Run(lim, Empty(), es))
      {
        FirstTimeRound(lim, es);
        UnreusedExact(lim, es);
      }
    } else {
      LongRunLoses(lim, ss, t);
    }
  }

  /** With one caller at a time, nobody holds an id when another is admitted. */
  lemma OneCaller(lim: Limits, es: seq<Event>)
    requires lim.subnet.prefix <= 32 && lim.callers <= 1
    ensures Booked(lim, Run(lim, Empty(), es)) && IdsExact(Run(lim, Empty(), es))
  {
    hide Run, IdsExact, Booked, Unreused;
    OneCallerUnreused(lim, es);
    UnreusedExact(lim, es);
  }

  lemma {:induction false} OneCallerUnreused(lim: Limits, es: seq<Event>)
    requires lim.subnet.prefix <= 32 && lim.callers <= 1
    ensures Unreused(lim, es)
  {
    hide Run, FirstFreeId;
    if es != [] {
      OneCallerUnreused(lim, es[..|es| - 1]);
    }
  }

  // ---- And no sooner than it must ----

  /** How many calls must overtake another before its id can come round. */
  function Turn(lim: Limits): int {
    TWO32 + 1 - lim.maxSessions - lim.callers
  }

  /** From two calls up, there are no more of them than sessions and one, and all of them leave ids to go round. */
  predicate Usual(lim: Limits) {
    lim.subnet.prefix <= 32 && 2 <= lim.callers <= lim.maxSessions + 1 && lim.maxSessions + 2 * lim.callers <= TWO32 + 2
  }

  /** M - 1 sessions come and stay, and others come and go until C - 1 ids are left. */
  function Lap1(lim: Limits, ss: seq<Session>): seq<Event>
    requires Usual(lim) && |ss| == IDS
  {
    var m, v := lim.maxSessions - 1, IDS - lim.callers + 1;
    Fills(ss[..m]) + Laps(ss[m..v])
  }

  lemma AfterLap1(lim: Limits, ss: seq<Session>)
    requires Usual(lim) && |ss| == IDS && Everyone(ss)
    ensures var m, v := lim.maxSessions - 1, IDS - lim.callers + 1;
            Stage(lim, Turn(lim), IDS, Lap1(lim, ss), Place(All(ss[..m]), multiset{}, v, 0, 0, v))
  {
    hide Stage, Fills, Laps, All, Everyone;
    FillAndLap(lim, Turn(lim), IDS, ss, lim.maxSessions - 1, IDS - lim.callers + 1);
  }

  /**
   * Calls take those ids and stall, the last of all with 2^32 - 1; the next one goes round, over the M - 1,
   * and gets M.
   */
  function Stalling(lim: Limits, ss: seq<Session>): seq<Event>
    requires Usual(lim) && |ss| == IDS
  {
    var m, v := lim.maxSessions - 1, IDS - lim.callers + 1;
    Lap1(lim, ss) + Stalls(v, lim.callers - 1) + [Admit(ss[m].sid), Insert(ss[m]), Remove(ss[m])]
  }

  lemma AfterStalling(lim: Limits, ss: seq<Session>)
    requires Usual(lim) && |ss| == IDS && Everyone(ss)
    ensures var m, v, c := lim.maxSessions - 1, IDS - lim.callers + 1, lim.callers;
            Stage(lim, Turn(lim), IDS, Stalling(lim, ss), Place(All(ss[..m]), IdsFrom(v, c - 1), m + 1, 1, c, IDS + 1))
  {
    hide *;
    UsualBounds(lim);
    var m, v, c, top := lim.maxSessions - 1, IDS - lim.callers + 1, lim.callers, Turn(lim);
    StallingIs(lim, ss);
    SidAt(ss, m);
    AfterLap1(lim, ss);
    Slice(ss, 0, m);
    Head(ss, m);
    IdsFromCount(v, c - 1);
    StageStalls(lim, top, IDS, Lap1(lim, ss), All(ss[..m]), v, c - 1, v);
    var p := Place(All(ss[..m]), IdsFrom(v, c - 1), IDS, 0, c - 1, IDS);
    RoomWithMany(lim, top, IDS, p);
    FreeAfterWrap(Ids(All(ss[..m])), m + 1);
    ComeAndGo(lim, top, IDS, Lap1(lim, ss) + Stalls(v, c - 1), p, ss[m]);
    LaterIs(p, 1);
  }

  lemma UsualBounds(lim: Limits)
    requires Usual(lim)
    ensures 2 <= lim.callers <= lim.maxSessions + 1 && lim.maxSessions + lim.callers <= IDS + 1
    ensures lim.subnet.prefix <= 32
    ensures Turn(lim) == IDS + 2 - lim.maxSessions - lim.callers && lim.callers - 1 <= Turn(lim)
  {
  }

  lemma SidAt(ss: seq<Session>, i: nat)
    requires Everyone(ss) && i < |ss|
    ensures ss[i].sid == i + 1
  {
  }

  lemma StallingIs(lim: Limits, ss: seq<Session>)
    requires Usual(lim) && |ss| == IDS
    ensures var m, v := lim.maxSessions - 1, IDS - lim.callers + 1;
            Stalling(lim, ss)
            == Lap1(lim, ss) + Stalls(v, lim.callers - 1) + [Admit(ss[m].sid), Insert(ss[m]), Remove(ss[m])]
  {
    hide Lap1, Stalls;
  }

  /** The M - 1 sessions go, and all but the last of the stalled calls get theirs in. */
  function Swapping(lim: Limits, ss: seq<Session>): seq<Event>
    requires Usual(lim) && |ss| == IDS
  {
    var m, v := lim.maxSessions - 1, IDS - lim.callers + 1;
    Stalling(lim, ss) + Removes(ss[..m]) + Inserts(ss[v..IDS - 1])
  }

  lemma AfterSwapping(lim: Limits, ss: seq<Session>)
    requires Usual(lim) && |ss| == IDS && Everyone(ss)
    ensures var m, v, c := lim.maxSessions - 1, IDS - lim.callers + 1, lim.callers;
            Stage(lim, Turn(lim), IDS, Swapping(lim, ss),
                  Place(All(ss[v..IDS - 1]), multiset{IDS}, m + 1, 1, c, IDS + 1))
  {
    var m, v, c, top := lim.maxSessions - 1, IDS - lim.callers + 1, lim.callers, Turn(lim);
    var stay, ys, none := ss[..m], ss[v..IDS - 1], All([]);
    assert Swapping(lim, ss) == Stalling(lim, ss) + Removes(stay) + Inserts(ys);
    assert All(stay) - All(stay) == none && none + All(ys) == All(ys);
    assert forall id :: id !in Ids(none);
    AllButLast(v, c - 1);
    hide *;
    AfterStalling(lim, ss);
    Slice(ss, 0, m);
    Slice(ss, v, IDS - 1);
    Head(ss, m);
    var p := Place(All(stay), IdsFrom(v, c - 1), m + 1, 1, c, IDS + 1);
    StageRemoves(lim, top, IDS, Stalling(lim, ss), p, stay, 0);
    StageInserts(lim, top, IDS, Stalling(lim, ss) + Removes(stay), p.(held := none), ys, v);
  }

  lemma AllButLast(n: nat, k: nat)
    requires k >= 1
    ensures IdsFrom(n, k - 1) <= IdsFrom(n, k) && IdsFrom(n, k) - IdsFrom(n, k - 1) == multiset{n + k}
  {
    assert IdsFrom(n, k) == IdsFrom(n, k - 1) + multiset{n + k};
  }

  /** Sessions come and go until only ids are left that are in byID, and the one of the call still stalled. */
  function Lap2(lim: Limits, ss: seq<Session>): seq<Event>
    requires Usual(lim) && |ss| == IDS
  {
    Swapping(lim, ss) + Laps(ss[lim.maxSessions..IDS - lim.callers + 1])
  }

  lemma AfterLap2(lim: Limits, ss: seq<Session>)
    requires Usual(lim) && |ss| == IDS && Everyone(ss)
    ensures var m, v, c := lim.maxSessions, IDS - lim.callers + 1, lim.callers;
            Stage(lim, Turn(lim), IDS, Lap2(lim, ss),
                  Place(All(ss[v..IDS - 1]), multiset{IDS}, v, Turn(lim), c + v - m, IDS + 1 + v - m))
  {
    hide *;
    UsualBounds(lim);
    var m, v, c, top := lim.maxSessions, IDS - lim.callers + 1, lim.callers, Turn(lim);
    var ys := ss[v..IDS - 1];
    Lap2Is(lim, ss);
    AfterSwapping(lim, ss);
    Slice(ss, v, IDS - 1);
    Slice(ss, m, v);
    var p := Place(All(ys), multiset{IDS}, m, 1, c, IDS + 1);
    LaterIs(p, v - m);
    if v > m {
      LaterIs(p, v - m - 1);
      RoomWithOne(lim, top, IDS, p.Later(v - m - 1));
    }
    StageLaps(lim, top, IDS, Swapping(lim, ss), p, ss[m..v]);
  }

  lemma Lap2Is(lim: Limits, ss: seq<Session>)
    requires Usual(lim) && |ss| == IDS
    ensures Lap2(lim, ss) == Swapping(lim, ss) + Laps(ss[lim.maxSessions..IDS - lim.callers + 1])
  {
    hide Swapping, Laps;
  }

  /** And the id of that call is handed out again. */
  function TurnRun(lim: Limits, ss: seq<Session>, t: Session): seq<Event>
    requires Usual(lim) && |ss| == IDS
  {
    Lap2(lim, ss) + [Admit(IDS)] + [Insert(ss[IDS - 1])] + [Insert(t)]
  }

  /** With no call overtaken by more than 2^32 + 1 - MaxSessions - C others, a live session is in byID nowhere. */
  lemma TurnRunLoses(lim: Limits, ss: seq<Session>, t: Session)
    requires Usual(lim) && |ss| == IDS && Everyone(ss) && t.sid == IDS && t != ss[IDS - 1]
    ensures Turn(lim) >= 1 && Prompt(lim, TurnRun(lim, ss, t), Turn(lim))
    ensures var st := Run(lim, Empty(), TurnRun(lim, ss, t));
            Current(st, ss[IDS - 1]) && Current(st, t) && !IdsComplete(st)
  {
    var m, v, c, top, s := lim.maxSessions, IDS - lim.callers + 1, lim.callers, Turn(lim), ss[IDS - 1];
    var ys := ss[v..IDS - 1];
    assert |ys| == c - 2 && s.sid == IDS && top >= 1;
    var p := Place(All(ys), multiset{IDS}, v, top, c + v - m, IDS + 1 + v - m);
    assert TurnRun(lim, ss, t) == Lap2(lim, ss) + [Admit(IDS)] + [Insert(s)] + [Insert(t)];
    hide *;
    AfterLap2(lim, ss);
    Slice(ss, v, IDS - 1);
    FreeAfter(Ids(All(ys)), v, c - 1);
    RoomWithOne(lim, top, IDS, p);
    TwiceAndLost(lim, top, Lap2(lim, ss), p, s, t);
  }

  /** The id of the one call still waiting is handed out to another, and both get their sessions in. */
  lemma TwiceAndLost(lim: Limits, top: nat, es: seq<Event>, p: Place, s: Session, t: Session)
    requires lim.subnet.prefix <= 32 && Stage(lim, top, s.sid, es, p) && Room(lim, top, s.sid, p)
    requires p.pending == multiset{s.sid}
    requires FirstFreeId(Ids(p.held), p.last, s.sid) && s != t && s.sid == t.sid
    ensures var run := es + [Admit(s.sid)] + [Insert(s)] + [Insert(t)];
            && Prompt(lim, run, top) && Admissions(lim, Empty(), run) == p.admitted + 1
            && Current(Run(lim, Empty(), run), s) && Current(Run(lim, Empty(), run), t)
            && !IdsComplete(Run(lim, Empty(), run))
  {
    var x := s.sid;
    assert x !in Ids(p.held);
    hide Stage, Room, FirstFreeId, Ids, Run, Prompt, Admissions, IdsComplete;
    StageAdmit(lim, top, x, es, p, x);
    var q := p.Admitting(x, x);
    StageInsert(lim, top, x, es + [Admit(x)], q, s);
    Loses(lim, top, x, es + [Admit(x)] + [Insert(s)], q.Inserting(s), s, t);
  }

  /**
   * byID is exact in all runs in which no call, between its two critical sections, has been overtaken
   * by more than n others when one is admitted, if and only if n + MaxSessions + C <= 2^32.
   */
  lemma ExactIffPrompt(lim: Limits, n: nat, ss: seq<Session>, t: Session)
    requires Usual(lim) && |ss| == IDS && Everyone(ss) && t.sid == IDS && t != ss[IDS - 1]
    ensures (forall es :: Prompt(lim, es, n) ==> IdsComplete(Run(lim, Empty(), es)))
            <==> n + lim.maxSessions + lim.callers <= TWO32
  {
    hide Prompt, Run, IdsComplete, Booked, Unreused, Everyone;
    if n + lim.maxSessions + lim.callers <= TWO32 {
      forall es | Prompt(lim, es, n)
        ensures IdsComplete(Run(lim, Empty(), es))
      {
        PromptUnreused(lim, es, n);
        UnreusedExact(lim, es);
      }
    } else {
      TurnRunLoses(lim, ss, t);
      PromptMore(lim, TurnRun(lim, ss, t), Turn(lim), n);
    }
  }

  // ---- A reply that goes astray ----

  /** A client that gets an address and leaves might as well not have had one. */
  lemma DrawAndGo(lim: Limits, st: State, s: Session, key: Point)
    requires lim.subnet.prefix <= 32 && s in st.live && st.live[s].ip.None? && st.live[s].key.None?
    requires !st.live[s].transferred
    requires st.byIP == map[] && st.byStatic == map[] && st.used == {} && FirstFree(lim.subnet, {}).Some?
    ensures var st', a := Apply(lim, st, Adopt(s, key)), FirstFree(lim.subnet, {}).value;
            && a in st'.byIP && st'.byIP[a] == s && s in st'.live && st'.live[s].sid == st.live[s].sid
            && Apply(lim, st', Remove(s)) == Apply(lim, st, Remove(s))
  {
    hide FirstFree;
    var a := FirstFree(lim.subnet, {}).value;
    var st' := AfterDraw(st, s, key, a);
    assert Apply(lim, st, Adopt(s, key)) == st';
    assert st'.byIP - {a} == map[] && st'.byStatic - {key} == map[] && st'.used - {a} == {};
    assert st'.live - {s} == st.live - {s};
  }

  /** A client gets an address and leaves again, without a trace. */
  lemma AdoptAndGo(lim: Limits, held: set<Session>, n: nat, s: Session, key: Point)
    requires lim.subnet.prefix <= 32 && Apart(held) && s in held && FirstFree(lim.subnet, {}).Some?
    ensures var st, a := Apply(lim, Idle(held, multiset{}, n), Adopt(s, key)), FirstFree(lim.subnet, {}).value;
            && a in st.byIP && st.byIP[a] == s && s in st.live && st.live[s].sid == s.sid
            && Apart(held - {s}) && Apply(lim, st, Remove(s)) == Idle(held - {s}, multiset{}, n)
  {
    hide FirstFree, Apply;
    DrawAndGo(lim, Idle(held, multiset{}, n), s, key);
    IdleRemoves(lim, held, multiset{}, n, s);
  }

  /** The client with id 1 has its address; it leaves, every other id is handed out, and another client gets 1. */
  function LookedUp(s: Session, key: Point): seq<Event> {
    [Admit(1), Insert(s)] + [Adopt(s, key)]
  }

  function Astray(ss: seq<Session>, t: Session): seq<Event>
    requires |ss| >= 1
  {
    [Remove(ss[0])] + Laps(ss[1..]) + [Admit(1), Insert(t)]
  }

  /** With 2^32 admissions a packet looked up for one session can be sent to another. */
  lemma ReplyGoesAstray(lim: Limits, ss: seq<Session>, t: Session, key: Point)
    requires lim.subnet.prefix <= 32 && lim.maxSessions >= 1 && lim.callers >= 1 && FirstFree(lim.subnet, {}).Some?
    requires |ss| == IDS && Everyone(ss) && t.sid == 1 && t != ss[0]
    ensures var a, b, address := LookedUp(ss[0], key), Astray(ss, t), FirstFree(lim.subnet, {}).value;
            && Admissions(lim, Empty(), a + b) == TWO32
            && address in Run(lim, Empty(), a).byIP && Run(lim, Empty(), a).byIP[address] == ss[0]
            && 1 in Run(lim, Empty(), a + b).byID && Run(lim, Empty(), a + b).byID[1] == t
  {
    assert |ss| >= 1;
    FirstIsOne(ss);
    hide *;
    AstrayIs(ss, t, key);
    AfterVisit(lim, ss[0], key);
    AfterRest(lim, LookedUp(ss[0], key) + [Remove(ss[0])], Place({}, multiset{}, 1, 1, 1, 1), ss, t);
  }

  lemma AfterVisit(lim: Limits, s: Session, key: Point)
    requires lim.subnet.prefix <= 32 && lim.maxSessions >= 1 && lim.callers >= 1 && FirstFree(lim.subnet, {}).Some?
    requires s.sid == 1
    ensures Stage(lim, 0, 0, LookedUp(s, key) + [Remove(s)], Place({}, multiset{}, 1, 1, 1, 1))
    ensures var st, address := Run(lim, Empty(), LookedUp(s, key)), FirstFree(lim.subnet, {}).value;
            address in st.byIP && st.byIP[address] == s
  {
    hide *;
    var es := [Admit(1), Insert(s)];
    LookedUpIs(s, key);
    AfterFirst(lim, s);
    var p := Place({} + {s}, multiset{}, 1, 1, 1, 1);
    Visits(lim, 0, es, p, s, key);
    BackAlone(p, s);
  }

  lemma LookedUpIs(s: Session, key: Point)
    ensures LookedUp(s, key) == [Admit(1), Insert(s)] + [Adopt(s, key)]
  {
  }

  lemma AfterFirst(lim: Limits, s: Session)
    requires lim.subnet.prefix <= 32 && lim.maxSessions >= 1 && lim.callers >= 1 && s.sid == 1
    ensures Stage(lim, 0, 0, [Admit(1), Insert(s)], Place({} + {s}, multiset{}, 1, 1, 1, 1))
  {
    hide *;
    NoneHeld();
    Starts(lim, 0, 0);
    var p := Place({}, multiset{}, 0, 0, 0, 0);
    RoomWithNone(lim, 0, 0, p);
    LaterIs(p, 1);
    ComeIn(lim, 0, 0, [], p, s);
    assert [] + [Admit(1), Insert(s)] == [Admit(1), Insert(s)];
  }

  lemma NoneHeld()
    ensures FirstFreeId(Ids({}), 0, 1) && FirstFreeId(Ids({}), IDS, 1) && forall id :: id !in Ids({})
  {
    FreeAfter(Ids({}), 0, 1);
    FreeAfterWrap(Ids({}), 1);
  }

  lemma FirstIsOne(ss: seq<Session>)
    requires |ss| == IDS && Everyone(ss)
    ensures ss[0].sid == 1
  {
  }

  lemma BackAlone(p: Place, s: Session)
    requires p.held == {} + {s}
    ensures p.Removing(s) == p.(held := {})
  {
    assert {} + {s} - {s} == {};
  }

  lemma AstrayIs(ss: seq<Session>, t: Session, key: Point)
    requires |ss| >= 1
    ensures var a := LookedUp(ss[0], key);
            a + Astray(ss, t) == a + [Remove(ss[0])] + Laps(ss[1..]) + [Admit(1), Insert(t)]
  {
    hide Laps, LookedUp;
  }

  /** All the other ids come and go; then t gets the first. */
  lemma AfterRest(lim: Limits, es: seq<Event>, p: Place, ss: seq<Session>, t: Session)
    requires lim.subnet.prefix <= 32 && lim.maxSessions >= 1 && lim.callers >= 1 && |ss| == IDS && Everyone(ss)
    requires t.sid == 1
    requires p == Place({}, multiset{}, 1, 1, 1, 1) && Stage(lim, 0, 0, es, p)
    ensures var run := es + Laps(ss[1..]) + [Admit(1), Insert(t)];
            && Admissions(lim, Empty(), run) == TWO32 && 1 in Run(lim, Empty(), run).byID
            && Run(lim, Empty(), run).byID[1] == t
  {
    var q := Place({}, multiset{}, IDS, IDS, IDS, IDS);
    assert p.Later(IDS - 1) == q && ss[1..IDS] == ss[1..] && |ss[1..]| == IDS - 1;
    hide Stage, Ids, FirstFreeId, Laps, Run, Admissions, Room, All, Everyone;
    NoneHeld();
    FillRoom(lim, 0, 0, p, IDS - 1);
    Slice(ss, 1, IDS);
    StageLaps(lim, 0, 0, es, p, ss[1..]);
    RoomWithNone(lim, 0, 0, q);
    ComeIn(lim, 0, 0, es + Laps(ss[1..]), q, t);
    HasSession(lim, 0, 0, es + Laps(ss[1..]) + [Admit(1), Insert(t)], q.Later(1).(last := 1, held := {} + {t}), t);
  }

  lemma Visits(lim: Limits, top: nat, es: seq<Event>, p: Place, s: Session, key: Point)
    requires lim.subnet.prefix <= 32 && Stage(lim, top, 0, es, p) && s in p.held && p.pending == multiset{}
    requires FirstFree(lim.subnet, {}).Some?
    ensures Stage(lim, top, 0, es + [Adopt(s, key)] + [Remove(s)], p.Removing(s))
    ensures var st, address := Run(lim, Empty(), es + [Adopt(s, key)]), FirstFree(lim.subnet, {}).value;
            address in st.byIP && st.byIP[address] == s
  {
    hide Idle, Run, Apply, Admissions, Prompt, Lag, FirstFree, CanAdmit;
    OneMore(lim, es, Adopt(s, key), top);
    OneMore(lim, es + [Adopt(s, key)], Remove(s), top);
    AdoptAndGo(lim, p.held, p.last, s, key);
  }

  lemma HasSession(lim: Limits, top: nat, x: nat, es: seq<Event>, p: Place, s: Session)
    requires lim.subnet.prefix <= 32 && Stage(lim, top, x, es, p) && s in p.held
    ensures s.sid in Run(lim, Empty(), es).byID && Run(lim, Empty(), es).byID[s.sid] == s
    ensures Admissions(lim, Empty(), es) == p.admitted
  {
  }

  // ---- An address shared with a bumped session ----

  /** s gets an address, t takes it over and is removed first, and u draws it again. */
  function SharedRun(s: Session, t: Session, u: Session, k1: Point, k2: Point): seq<Event> {
    Fills([s, t, u]) + [Adopt(s, k1)] + [Adopt(t, k1)] + [Remove(t)] + [Adopt(u, k2)]
  }

  /** Then the bumped session s and the session u of another key are live at one address. */
  lemma BumpedSharesAddress(lim: Limits, s: Session, t: Session, u: Session, k1: Point, k2: Point)
    requires lim.subnet.prefix <= 32 && lim.maxSessions >= 3 && lim.callers >= 1 && FirstFree(lim.subnet, {}).Some?
    requires s.sid == 1 && t.sid == 2 && u.sid == 3 && k1 != k2
    ensures var st := Run(lim, Empty(), SharedRun(s, t, u, k1, k2));
            && s in st.live && u in st.live && s != u && st.live[s].ip.Some? && st.live[s].ip == st.live[u].ip
            && st.live[s].key == Some(k1) && st.live[u].key == Some(k2)
  {
    var ss := [s, t, u];
    StageFills(lim, 0, 0, ss);
    AllInOrder(ss, 0);
    var st0 := Idle(All(ss), multiset{}, 3);
    assert s in All(ss) && t in All(ss) && u in All(ss);
    SharedSteps(lim, st0, s, t, u, k1, k2);
    assert Run(lim, Empty(), Fills(ss)) == st0;
    hide *;
    var e1, e2, e3, e4 := Adopt(s, k1), Adopt(t, k1), Remove(t), Adopt(u, k2);
    OneMore(lim, Fills(ss), e1, 0);
    OneMore(lim, Fills(ss) + [e1], e2, 0);
    OneMore(lim, Fills(ss) + [e1] + [e2], e3, 0);
    OneMore(lim, Fills(ss) + [e1] + [e2] + [e3], e4, 0);
    SharedRunIs(s, t, u, k1, k2);
  }

  lemma SharedRunIs(s: Session, t: Session, u: Session, k1: Point, k2: Point)
    ensures SharedRun(s, t, u, k1, k2)
         == Fills([s, t, u]) + [Adopt(s, k1)] + [Adopt(t, k1)] + [Remove(t)] + [Adopt(u, k2)]
  {
    hide Fills;
  }

  lemma SharedSteps(lim: Limits, st: State, s: Session, t: Session, u: Session, k1: Point, k2: Point)
    requires lim.subnet.prefix <= 32 && s != t && t != u && s != u && k1 != k2
    requires st.byIP == map[] && st.byStatic == map[] && st.used == {} && FirstFree(lim.subnet, {}).Some?
    requires Handshaking(st, s) && Handshaking(st, t) && Handshaking(st, u)
    requires !st.live[s].transferred && !st.live[t].transferred
    ensures var mid := Apply(lim, Apply(lim, st, Adopt(s, k1)), Adopt(t, k1));
            var st' := Apply(lim, Apply(lim, mid, Remove(t)), Adopt(u, k2));
            && s in st'.live && u in st'.live && st'.live[s].ip.Some? && st'.live[s].ip == st'.live[u].ip
            && st'.live[s].key == Some(k1) && st'.live[u].key == Some(k2)
  {
    hide FirstFree;
    var a := FirstFree(lim.subnet, {}).value;
    var st1 := AfterDraw(st, s, k1, a);
    assert Apply(lim, st, Adopt(s, k1)) == st1;
    var st2 := AfterHandover(st1, t, k1);
    assert Apply(lim, st1, Adopt(t, k1)) == st2;
    var st3 := AfterRemove(st2, t);
    assert st3.used == {} && k2 !in st3.byStatic;
    assert Apply(lim, st3, Adopt(u, k2)) == AfterDraw(st3, u, k2, a);
  }
}
