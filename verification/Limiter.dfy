/** The handshake rate limiter: `requireCookie` in internal/session/server.go. Times are in nanoseconds. */
module Limiter {
  import opened Bytes
  import opened Sizes

  const RATE_LIMIT: nat := 20
  const RATE_WINDOW: int := 10_000_000_000

  datatype Bucket = Bucket(count: nat, reset: int)

  /** One call reads the clock to decide, and again if it opens a new bucket. */
  datatype Call = Call(now: int, later: int)

  predicate Opens(b: Option<Bucket>, c: Call) {
    b.None? || c.now > b.value.reset
  }

  /** The bucket after the call; `count` is a uint32. */
  function After(b: Option<Bucket>, c: Call): Bucket {
    if Opens(b, c) then Bucket(1, c.later + RATE_WINDOW)
    else b.value.(count := (b.value.count + 1) % TWO32)
  }

  /** The call is let through without a cookie. */
  predicate Passes(b: Option<Bucket>, c: Call) {
    Opens(b, c) || After(b, c).count <= RATE_LIMIT
  }

  function Lookup(buckets: map<string, Bucket>, ip: string): Option<Bucket> {
    if ip in buckets then Some(buckets[ip]) else None
  }

  /** The table after a call from the address. */
  function Counted(buckets: map<string, Bucket>, ip: string, c: Call): map<string, Bucket> {
    buckets[ip := After(Lookup(buckets, ip), c)]
  }

  class RateTable {
    var buckets: map<string, Bucket>

    /** Reports whether a handshake from the address must present a cookie. */
    method RequireCookie(ip: string, c: Call) returns (required: bool)
      modifies this
      ensures required == !Passes(Lookup(old(buckets), ip), c) && buckets == Counted(old(buckets), ip, c)
    {
      if ip !in buckets || c.now > buckets[ip].reset {
        buckets := buckets[ip := Bucket(1, c.later + RATE_WINDOW)];
        return false;
      }
      var b := buckets[ip];
      b := b.(count := (b.count + 1) % TWO32);
      buckets := buckets[ip := b];
      return b.count > RATE_LIMIT;
    }
  }

  // ---- Any sequence of calls from one address ----

  /** The clock does not go back. */
  ghost predicate Ordered(cs: seq<Call>) {
    && (forall i :: 0 <= i < |cs| ==> cs[i].now <= cs[i].later)
    && (forall i, j :: 0 <= i < j < |cs| ==> cs[i].later <= cs[j].now)
  }

  /** The bucket before call i. */
  function Before(cs: seq<Call>, i: nat): Option<Bucket>
    requires i <= |cs|
  {
    if i == 0 then None else Some(After(Before(cs, i - 1), cs[i - 1]))
  }

  predicate Passed(cs: seq<Call>, i: nat)
    requires i < |cs|
  {
    Passes(Before(cs, i), cs[i])
  }

  /** No bucket sees 2^32 calls, so its counter does not wrap. */
  ghost predicate Unwrapped(cs: seq<Call>) {
    forall i :: 0 <= i < |cs| && Before(cs, i).Some? ==> Before(cs, i).value.count + 1 < TWO32
  }

  /** The call that opened the bucket in which call i is counted. */
  function Opener(cs: seq<Call>, i: nat): (k: nat)
    requires i < |cs|
    ensures k <= i
  {
    if Opens(Before(cs, i), cs[i]) || i == 0 then i else Opener(cs, i - 1)
  }

  /** Each bucket counts the calls since it was opened, and passes the first twenty. */
  lemma {:induction false} OpenerExact(cs: seq<Call>, i: nat)
    requires i < |cs| && Unwrapped(cs)
    ensures Before(cs, i + 1) == Some(Bucket(i - Opener(cs, i) + 1, cs[Opener(cs, i)].later + RATE_WINDOW))
    ensures Passed(cs, i) <==> i < Opener(cs, i) + RATE_LIMIT
    ensures Opener(cs, Opener(cs, i)) == Opener(cs, i)
  {
    if i != 0 {
      OpenerExact(cs, i - 1);
      Uncounted(cs, i);
    }
  }

  lemma Uncounted(cs: seq<Call>, i: nat)
    requires 0 < i < |cs| && Unwrapped(cs)
    ensures Before(cs, i).Some? && (Before(cs, i).value.count + 1) % TWO32 == Before(cs, i).value.count + 1
  {
  }

  /** A bucket is opened by the first call and by one more than ten seconds after the last opening, and by no other. */
  lemma ReopensIff(cs: seq<Call>, i: nat)
    requires i < |cs| && Unwrapped(cs)
    ensures Opener(cs, i) == i <==> i == 0 || cs[i].now > cs[Opener(cs, i - 1)].later + 10_000_000_000
  {
    if i != 0 {
      OpenerExact(cs, i - 1);
    }
  }

  /** Buckets open more than a window apart. */
  lemma {:induction false} OpenersApart(cs: seq<Call>, i: nat, j: nat)
    requires i <= j < |cs| && Unwrapped(cs) && Ordered(cs)
    ensures Opener(cs, i) <= Opener(cs, j)
    ensures Opener(cs, i) != Opener(cs, j) ==> i < Opener(cs, j)
    ensures Opener(cs, i) != Opener(cs, j) ==> cs[Opener(cs, j)].now > cs[Opener(cs, i)].now + RATE_WINDOW
    decreases j
  {
    if i < j {
      OpenersApart(cs, i, j - 1);
      OpenerExact(cs, j - 1);
    }
  }

  predicate Within(cs: seq<Call>, i: nat, from: int) {
    i < |cs| && Passed(cs, i) && from <= cs[i].now <= from + RATE_WINDOW
  }

  /** The calls let through in the closed interval of one window's length that begins at `from`. */
  function PassedIn(cs: seq<Call>, from: int): set<nat> {
    set i: nat | i < |cs| && Within(cs, i, from)
  }

  function Range(from: nat, n: nat): set<nat> {
    if n == 0 then {} else Range(from, n - 1) + {from + n - 1}
  }

  lemma {:induction false} RangeExact(from: nat, n: nat)
    ensures |Range(from, n)| == n
    ensures forall i :: i in Range(from, n) <==> from <= i < from + n
  {
    if n != 0 {
      RangeExact(from, n - 1);
    }
  }

  /** Two calls of different buckets in one interval: the earlier bucket was opened before the interval began. */
  lemma EarlierOpenedBefore(cs: seq<Call>, from: int, p: nat, q: nat)
    requires Ordered(cs) && Unwrapped(cs) && Within(cs, p, from) && Within(cs, q, from)
    requires Opener(cs, p) < Opener(cs, q)
    ensures p < Opener(cs, q) && cs[Opener(cs, p)].now < from && cs[Opener(cs, q)].now >= from
  {
    if q <= p {
      OpenersApart(cs, q, p);
      assert false;
    }
    OpenersApart(cs, p, q);
    var o := Opener(cs, q);
    assert cs[p].now <= cs[p].later <= cs[o].now;
    assert o == q || cs[o].now <= cs[o].later <= cs[q].now;
  }

  /** Calls of three different buckets do not fit into one interval. */
  lemma AtMostTwoBuckets(cs: seq<Call>, from: int, p: nat, q: nat, r: nat)
    requires Ordered(cs) && Unwrapped(cs) && p < |cs| && q < |cs| && r < |cs|
    requires Opener(cs, p) < Opener(cs, q) < Opener(cs, r)
    ensures !(Within(cs, p, from) && Within(cs, q, from) && Within(cs, r, from))
  {
    if Within(cs, p, from) && Within(cs, q, from) && Within(cs, r, from) {
      EarlierOpenedBefore(cs, from, p, q);
      EarlierOpenedBefore(cs, from, q, r);
    }
  }

  /** However a ten-second interval is placed, at most 39 handshakes from one address pass in it without a cookie. */
  lemma AtMost39(cs: seq<Call>, from: int)
    requires Ordered(cs) && Unwrapped(cs)
    ensures |PassedIn(cs, from)| <= 2 * RATE_LIMIT - 1
  {
    hide Before, Passed;
    var all := PassedIn(cs, from);
    if all != {} {
      var p: nat :| p in all;
      if q: nat :| q in all && Opener(cs, q) != Opener(cs, p) {
        if Opener(cs, p) < Opener(cs, q) {
          TwoBuckets(cs, from, p, q);
        } else {
          TwoBuckets(cs, from, q, p);
        }
      } else {
        forall i | i in all
          ensures i in Range(Opener(cs, p), RATE_LIMIT)
        {
          OpenerExact(cs, i);
          RangeExact(Opener(cs, p), RATE_LIMIT);
        }
        RangeExact(Opener(cs, p), RATE_LIMIT);
        SubsetSize(all, Range(Opener(cs, p), RATE_LIMIT));
      }
    }
  }

  lemma TwoBuckets(cs: seq<Call>, from: int, p: nat, q: nat)
    requires Ordered(cs) && Unwrapped(cs) && Within(cs, p, from) && Within(cs, q, from)
    requires Opener(cs, p) < Opener(cs, q)
    ensures |PassedIn(cs, from)| <= 2 * RATE_LIMIT - 1
  {
    hide Before;
    var o, o' := Opener(cs, p), Opener(cs, q);
    var early, late := Range(o + 1, RATE_LIMIT - 1), Range(o', RATE_LIMIT);
    RangeExact(o + 1, RATE_LIMIT - 1);
    RangeExact(o', RATE_LIMIT);
    EarlierOpenedBefore(cs, from, p, q);
    forall i | i in PassedIn(cs, from)
      ensures i in early + late
    {
      OpenerExact(cs, i);
      var x := Opener(cs, i);
      if x < o {
        AtMostTwoBuckets(cs, from, i, p, q);
      } else if o < x < o' {
        AtMostTwoBuckets(cs, from, p, i, q);
      } else if x > o' {
        AtMostTwoBuckets(cs, from, p, q, i);
      }
    }
    SubsetSize(PassedIn(cs, from), early + late);
    assert |early + late| <= |early| + |late|;
  }

  // ---- The table, with calls from many addresses interleaved ----

  datatype Request = Request(ip: string, call: Call)

  /** The table after the requests. */
  function Table(rs: seq<Request>): map<string, Bucket> {
    if rs == [] then map[] else
      var r := rs[|rs| - 1];
      Counted(Table(rs[..|rs| - 1]), r.ip, r.call)
  }

  /** The calls from one address. */
  function CallsFrom(rs: seq<Request>, ip: string): seq<Call> {
    if rs == [] then [] else
      var r, before := rs[|rs| - 1], CallsFrom(rs[..|rs| - 1], ip);
      if r.ip == ip then before + [r.call] else before
  }

  predicate LetThrough(rs: seq<Request>, ip: string, from: int)
    requires rs != []
  {
    var r := rs[|rs| - 1];
    r.ip == ip && Passes(Lookup(Table(rs[..|rs| - 1]), ip), r.call) && from <= r.call.now <= from + RATE_WINDOW
  }

  /**
   * How many requests from the address the table lets through without a cookie in the interval that begins
   * at `from`.
   */
  function LetThroughIn(rs: seq<Request>, ip: string, from: int): nat {
    if rs == [] then 0 else LetThroughIn(rs[..|rs| - 1], ip, from) + if LetThrough(rs, ip, from) then 1 else 0
  }

  lemma {:induction false} BeforePrefix(cs: seq<Call>, c: Call, i: nat)
    requires i <= |cs|
    ensures Before(cs + [c], i) == Before(cs, i)
  {
    if i != 0 {
      BeforePrefix(cs, c, i - 1);
    }
  }

  lemma PassedInLast(cs: seq<Call>, c: Call, from: int)
    ensures |PassedIn(cs + [c], from)|
         == |PassedIn(cs, from)| + if Passes(Before(cs, |cs|), c) && from <= c.now <= from + RATE_WINDOW then 1 else 0
  {
    hide Before, Passes;
    forall i: nat | i <= |cs|
      ensures Before(cs + [c], i) == Before(cs, i)
    {
      BeforePrefix(cs, c, i);
    }
    var last: set<nat> := if Passes(Before(cs, |cs|), c) && from <= c.now <= from + RATE_WINDOW then {|cs|} else {};
    assert PassedIn(cs + [c], from) == PassedIn(cs, from) + last;
  }

  /** Whatever else is in between, the table holds for each address the bucket of that address's own calls. */
  lemma {:induction false} TableProjects(rs: seq<Request>, ip: string, from: int)
    ensures Lookup(Table(rs), ip) == Before(CallsFrom(rs, ip), |CallsFrom(rs, ip)|)
    ensures LetThroughIn(rs, ip, from) == |PassedIn(CallsFrom(rs, ip), from)|
  {
    if rs != [] {
      hide After, Passes;
      var r, before := rs[|rs| - 1], rs[..|rs| - 1];
      TableProjects(before, ip, from);
      if r.ip == ip {
        var cs := CallsFrom(before, ip);
        BeforePrefix(cs, r.call, |cs|);
        PassedInLast(cs, r.call, from);
      }
    }
  }

  /** The table's clock does not go back. */
  ghost predicate InOrder(rs: seq<Request>) {
    && (forall i :: 0 <= i < |rs| ==> rs[i].call.now <= rs[i].call.later)
    && (forall i, j :: 0 <= i < j < |rs| ==> rs[i].call.later <= rs[j].call.now)
  }

  lemma {:induction false} CallsInOrder(rs: seq<Request>, ip: string, end: int)
    requires InOrder(rs) && forall i :: 0 <= i < |rs| ==> rs[i].call.later <= end
    ensures Ordered(CallsFrom(rs, ip)) && forall i :: 0 <= i < |CallsFrom(rs, ip)| ==> CallsFrom(rs, ip)[i].later <= end
  {
    if rs != [] {
      var r, before := rs[|rs| - 1], rs[..|rs| - 1];
      CallsInOrder(before, ip, r.call.now);
    }
  }

  /** However the requests of many addresses interleave, each address gets at most 39 through in any ten seconds. */
  lemma TableAtMost39(rs: seq<Request>, ip: string, from: int)
    requires InOrder(rs) && Unwrapped(CallsFrom(rs, ip))
    ensures LetThroughIn(rs, ip, from) <= 2 * RATE_LIMIT - 1
  {
    hide CallsFrom, LetThroughIn, PassedIn, Unwrapped;
    TableProjects(rs, ip, from);
    CallsInOrder(rs, ip, if rs == [] then 0 else rs[|rs| - 1].call.later);
    AtMost39(CallsFrom(rs, ip), from);
  }

  // ---- The bound is reached ----

  /** One call at time 0, nineteen at the last moment of its bucket, twenty just after. */
  predicate Burst(cs: seq<Call>) {
    && |cs| == 40 && cs[0] == Call(0, 0)
    && (forall i :: 1 <= i < 20 ==> cs[i] == Call(RATE_WINDOW, RATE_WINDOW))
    && (forall i :: 20 <= i < 40 ==> cs[i] == Call(RATE_WINDOW + 1, RATE_WINDOW + 1))
  }

  lemma {:induction false} BurstBuckets(cs: seq<Call>, i: nat)
    requires Burst(cs) && 1 <= i <= 40
    ensures Before(cs, i) == Some(if i <= 20 then Bucket(i, RATE_WINDOW) else Bucket(i - 20, 2 * RATE_WINDOW + 1))
  {
    if i > 1 {
      BurstBuckets(cs, i - 1);
    }
  }

  lemma BurstPassed(cs: seq<Call>, i: nat)
    requires Burst(cs) && i < 40
    ensures Passed(cs, i)
    ensures Before(cs, i).Some? ==> Before(cs, i).value.count + 1 < TWO32
  {
    if i >= 1 {
      BurstBuckets(cs, i);
    }
  }

  /** The bound of 39 is reached. */
  lemma Attained(cs: seq<Call>)
    requires Burst(cs)
    ensures Ordered(cs) && Unwrapped(cs) && |PassedIn(cs, 1)| == 2 * RATE_LIMIT - 1
  {
    hide Before, Passed, Range;
    forall i | 0 <= i < 40
      ensures Before(cs, i).Some? ==> Before(cs, i).value.count + 1 < TWO32
    {
      BurstPassed(cs, i);
    }
    RangeExact(1, 39);
    forall i: nat
      ensures i in PassedIn(cs, 1) <==> i in Range(1, 39)
    {
      if i < 40 {
        BurstPassed(cs, i);
      }
    }
    assert PassedIn(cs, 1) == Range(1, 39);
  }
}
