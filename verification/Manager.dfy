/** The session manager itself, updating its maps in place. */
module Managers {
  import opened Bytes
  import opened IPv4
  import opened NoiseXK
  import opened AddressPool
  import opened RegistrySpec

  /** What the manager knows of each session. */
  ghost function Infos(live: set<Session>): map<Session, Info>
    reads live
  {
    map s | s in live :: Info(s.sid, s.clientKey, s.ip, s.transferred)
  }

  lemma InfosWithout(live: set<Session>, s: Session)
    ensures Infos(live - {s}) == Infos(live) - {s}
  {
  }

  lemma InfosWith(infos: map<Session, Info>, live: set<Session>, s: Session)
    requires s !in live && infos == Infos(live)
    ensures Infos(live + {s}) == infos[s := Info(s.sid, s.clientKey, s.ip, s.transferred)]
  {
  }

  /** The newcomer s gets prev's address, and prev is marked and told to stop. */
  method Bump(s: Session, prev: Session, ghost live: set<Session>)
    requires s in live && prev in live && s != prev
    modifies s`ip, prev`transferred, prev`cancelled
    ensures s.ip == prev.ip && s.clientKey == old(s.clientKey) && prev.cancelled
    ensures var was := old(Infos(live));
            Infos(live) == was[s := was[s].(ip := prev.ip)][prev := was[prev].(transferred := true)]
  {
    s.ip := prev.ip;
    prev.transferred := true;
    prev.cancelled := true;
  }

  /** The map has the session under the key. */
  predicate Finds<K>(m: map<K, Session>, k: K, t: Session) {
    k in m && m[k] == t
  }

  class Manager {
    const maxSessions: nat
    const pool: IpPool
    var byID: map<nat, Session>
    var byIP: map<nat, Session>
    var byStatic: map<Point, Session>
    var nextID: nat
    var sessions: int

    /**
     * Sessions inserted and not removed, ids in the hands of unfinished HandleTransport calls, and how many
     * such calls there may be.
     */
    ghost var live: set<Session>
    ghost var pending: multiset<nat>
    ghost const callers: nat

    ghost function Lim(): Limits {
      Limits(pool.network, maxSessions, callers)
    }

    ghost function View(): State
      reads this, pool, live
    {
      State(byID, byIP, byStatic, pool.used, nextID,
            Infos(live), pending, sessions)
    }

    ghost predicate Valid()
      reads this, pool, live
    {
      pool.Valid() && nextID < TWO32 && Booked(Lim(), View())
    }

    constructor (subnet: Subnet, maxSessions: nat, ghost callers: nat)
      requires subnet.Valid()
      ensures Valid() && fresh(pool) && View() == Empty()
      ensures Lim() == Limits(subnet, maxSessions, callers)
    {
      this.maxSessions := maxSessions;
      this.callers := callers;
      pool := new IpPool(subnet);
      byID, byIP, byStatic := map[], map[], map[];
      nextID, sessions := 0, 0;
      live, pending := {}, multiset{};
    }

    /** Walks round the id space; with a free id ahead, the walk gets closer to it at every step. */
    method AllocID() returns (id: nat)
      requires nextID < TWO32
      requires exists f: nat :: 1 <= f < TWO32 && f !in byID
      modifies this`nextID
      ensures FirstFreeId(byID.Keys, old(nextID), id) && nextID == id && 1 <= id < TWO32
    {
      ghost var f: nat :| 1 <= f < TWO32 && f !in byID;
      ghost var d := 0;
      while true
        invariant nextID < TWO32 && nextID == Advance(old(nextID), d)
        invariant forall j :: 1 <= j <= d ==> Advance(old(nextID), j) in byID
        decreases Distance(nextID, f)
      {
        nextID := (nextID + 1) % TWO32;
        if nextID == 0 {
          nextID := 1;
        }
        d := d + 1;
        assert nextID == Advance(old(nextID), d);
        if nextID !in byID {
          return nextID;
        }
      }
    }

    /** The first critical section of HandleTransport. */
    method Admit() returns (id: Option<nat>)
      requires Valid() && |pending| < callers
      requires |byID| < maxSessions ==> exists f: nat :: 1 <= f < TWO32 && f !in byID
      modifies this`nextID, this`pending
      ensures id == None <==> |byID| >= maxSessions
      ensures id == None ==> View() == old(View())
      ensures id.Some? ==> CanAdmit(Lim(), old(View()), id.value) && View() == AfterAdmit(old(View()), id.value)
      ensures Valid()
    {
      hide Booked;
      if |byID| >= maxSessions {
        return None;
      }
      var n := AllocID();
      pending := pending + multiset{n};
      assert View() == AfterAdmit(old(View()), n);
      AdmitKeeps(Lim(), old(View()), n);
      return Some(n);
    }

    /** The second one: the new session is entered under the id taken in the first. */
    method Insert(id: nat) returns (s: Session)
      requires Valid() && id in pending
      modifies this`byID, this`sessions, this`live, this`pending
      ensures fresh(s) && s.sid == id && CanInsert(old(View()), s)
      ensures Valid() && View() == AfterInsert(old(View()), s)
    {
      hide Booked;
      ghost var before := View();
      s := new Session(id);
      Enter(s);
      InfosWith(before.live, old(live), s);
      InsertKeeps(Lim(), before, s);
    }

    method Enter(s: Session)
      modifies this`byID, this`sessions, this`live, this`pending
      ensures byID == old(byID)[s.sid := s] && sessions == old(sessions) + 1
      ensures live == old(live) + {s} && pending == old(pending) - multiset{s.sid}
    {
      byID := byID[s.sid := s];
      sessions := sessions + 1;
      live := live + {s};
      pending := pending - multiset{s.sid};
    }

    /** Called once the session's key is known; false means the subnet is exhausted. */
    method Adopt(s: Session) returns (ok: bool)
      requires Valid() && s in live && s.ip.None? && s.clientKey.Some?
      modifies this`byID, this`byIP, this`byStatic, pool, live
      ensures s.clientKey == old(s.clientKey)
      ensures Valid() && View() == AfterAdopt(Lim(), old(View()), s, s.clientKey.value)
      ensures ok == s.ip.Some?
      ensures forall t :: t in live ==>
                t.cancelled == (old(t.cancelled) || (t != s && Finds(old(byStatic), s.clientKey.value, t)))
    {
      hide Booked, FirstFree, AfterHandover, AfterDraw;
      ghost var before := View();
      var key := s.clientKey.value;
      KnownKey(Lim(), before, s, key);
      AdoptKeeps(Lim(), before, s, key);
      if key in byStatic && byStatic[key] != s {
        TakeOver(s, byStatic[key]);
        return true;
      }
      var r := pool.Alloc(None);
      if r.None? {
        assert View() == AfterIdentify(before, s, key);
        return false;
      }
      Settle(s, r.value, before);
      return true;
    }

    /** A reconnecting client: the newcomer gets the old session's address, and the old session is bumped. */
    method TakeOver(s: Session, prev: Session)
      requires s in live && prev in live && s.ip.None? && s.clientKey.Some? && prev.ip.Some?
      requires s.clientKey.value in byStatic && byStatic[s.clientKey.value] == prev && prev != s
      modifies this`byID, this`byIP, this`byStatic, s`ip, prev`transferred, prev`cancelled
      ensures s.clientKey == old(s.clientKey) && s.ip == prev.ip && prev.cancelled
      ensures Handshaking(old(View()), s) && HandsOver(old(View()), s.clientKey.value)
      ensures View() == AfterHandover(old(View()), s, s.clientKey.value)
    {
      Bump(s, prev, live);
      byIP := byIP[s.ip.value := s];
      byID := byID - {prev.sid};
      byStatic := byStatic[s.clientKey.value := s];
      hide Infos;
    }

    /** A first-time client: `before` is the state in which the address a was drawn. */
    method Settle(s: Session, a: nat, ghost before: State)
      requires s in live && s.ip.None? && s.clientKey.Some?
      requires Handshaking(before, s) && View() == before.(used := before.used + {a})
      modifies this`byIP, this`byStatic, s`ip
      ensures s.clientKey == old(s.clientKey) && s.ip == Some(a)
      ensures View() == AfterDraw(before, s, s.clientKey.value, a)
    {
      s.ip := Some(a);
      byStatic := byStatic[s.clientKey.value := s];
      byIP := byIP[s.ip.value := s];
    }

    /** Runs once, when a session ends; a bumped session finds its indexes taken over. */
    method Remove(s: Session)
      requires Valid() && s in live
      modifies this`byID, this`byIP, this`byStatic, this`sessions, this`live, pool
      ensures Valid() && View() == AfterRemove(old(View()), s)
    {
      hide Booked;
      ghost var before := View();
      DropIndexes(s);
      sessions := sessions - 1;
      live := live - {s};
      InfosWithout(old(live), s);
      RemoveKeeps(Lim(), before, s);
      assert View() == AfterRemove(before, s) by {
        hide Unless;
      }
    }

    method DropIndexes(s: Session)
      modifies this`byID, this`byIP, this`byStatic, pool
      ensures byID == Unless(old(byID), s.sid, s)
      ensures byIP == if s.ip.Some? then Unless(old(byIP), s.ip.value, s) else old(byIP)
      ensures byStatic == if s.clientKey.Some? then Unless(old(byStatic), s.clientKey.value, s) else old(byStatic)
      ensures pool.used == if s.ip.Some? && !s.transferred then old(pool.used) - {s.ip.value} else old(pool.used)
    {
      byID := Drop(byID, s.sid, s);
      if s.ip.Some? {
        byIP := Drop(byIP, s.ip.value, s);
        if !s.transferred {
          pool.Release(s.ip.value);
        }
      }
      if s.clientKey.Some? {
        byStatic := Drop(byStatic, s.clientKey.value, s);
      }
    }

    /** `if m[k] == s { delete(m, k) }` */
    static method Drop<K>(m: map<K, Session>, k: K, s: Session) returns (r: map<K, Session>)
      ensures r == Unless(m, k, s)
    {
      if k in m && m[k] == s {
        return m - {k};
      }
      return m;
    }

    /** `TunLoop` on one packet: it goes to the session that holds its destination, if it is sane and there is one. */
    method Route(pkt: Bytes) returns (r: Option<Session>)
      requires Valid()
      ensures r.Some? <==>
              WellFormed(pkt) && exists s :: s in live && Holder(View(), s) && s.ip == Some(Destination(pkt))
      ensures r.Some? ==> r.value in live && Holder(View(), r.value) && r.value.ip == Some(Destination(pkt))
    {
      hide Booked, WellFormed, Destination, Parse;
      ParseExact(pkt);
      var h := Parse(pkt);
      if h.None? {
        return None;
      }
      r := LookupIP(h.value.dst);
    }

    /** Routes an address to the session that holds it; by the invariant there is at most one, and it is live. */
    method LookupIP(a: nat) returns (r: Option<Session>)
      requires Valid()
      ensures r.Some? <==> exists s :: s in live && Holder(View(), s) && s.ip == Some(a)
      ensures r.Some? ==> r.value in live && Holder(View(), r.value) && r.value.ip == Some(a)
      ensures forall s :: s in live && Holder(View(), s) && s.ip == Some(a) ==> r == Some(s)
    {
      hide IdsSound, KeysIndexed;
      if a in byIP {
        return Some(byIP[a]);
      }
      return None;
    }
  }
}
