/**
 * What the anti-replay window of internal/protocol/replay.go means, as a set of marked distances below the
 * highest number.
 */
module ReplaySpec {
  import opened Bytes

  /** `^uint64(0)`, which `high` holds until the first packet arrives. */
  const EMPTY: nat := 0xFFFF_FFFF_FFFF_FFFF

  /** `marks` holds the distances below `high` whose bit is set. */
  datatype Window = Window(size: nat, high: nat, marks: set<nat>)

  function Fresh(size: nat): (w: Window)
    ensures w.size >= 64 && w.size % 64 == 0
  {
    var s := if size < 64 then 64 else size;
    Window(s - s % 64, EMPTY, {})
  }

  predicate Check(w: Window, n: nat) {
    || w.high == EMPTY
    || n > w.high
    || (w.high - n < w.size && w.high - n !in w.marks)
  }

  predicate Moved(marks: set<nat>, slide: nat, p: nat) {
    slide <= p && p - slide in marks
  }

  /** The marks move away from the new highest number, and those that leave the window are dropped. */
  function ShiftMarks(marks: set<nat>, slide: nat, size: nat): set<nat> {
    set p: nat | p < size && Moved(marks, slide, p)
  }

  /** The slide is so long that the bitmap is cleared, and the new bit 0 is left unset. */
  predicate Jumps(w: Window, n: nat) {
    w.high != EMPTY && n > w.high && n - w.high >= w.size
  }

  function Add(w: Window, n: nat): Window {
    if w.high == EMPTY then
      w.(high := n, marks := w.marks + {0})
    else if n <= w.high then
      if w.high - n < w.size then w.(marks := w.marks + {w.high - n}) else w
    else if Jumps(w, n) then
      w.(high := n, marks := {})
    else
      w.(high := n, marks := ShiftMarks(w.marks, n - w.high, w.size) + {0})
  }

  // ---- Runs: numbers are offered one after the other, each added if and only if it passes the check ----

  function Offer(w: Window, n: nat): Window {
    if Check(w, n) then Add(w, n) else w
  }

  function After(w: Window, offers: seq<nat>): Window {
    if offers == [] then w else Offer(After(w, offers[..|offers| - 1]), offers[|offers| - 1])
  }

  predicate Accepted(w: Window, offers: seq<nat>, i: nat)
    requires i < |offers|
  {
    Check(After(w, offers[..i]), offers[i])
  }

  /** How often the run accepts n. */
  function Count(w: Window, offers: seq<nat>, n: nat): nat {
    if offers == [] then 0 else
      var k := |offers| - 1;
      Count(w, offers[..k], n) + if offers[k] == n && Check(After(w, offers[..k]), n) then 1 else 0
  }

  /** Numbers the run accepted other than by a jump: the ones the window knows it has seen. */
  function Recorded(w: Window, offers: seq<nat>): set<nat> {
    if offers == [] then {} else
      var k := |offers| - 1;
      var v := After(w, offers[..k]);
      Recorded(w, offers[..k]) + if Check(v, offers[k]) && !Jumps(v, offers[k]) then {offers[k]} else {}
  }

  /** Numbers the run accepted by a jump. */
  function Jumped(w: Window, offers: seq<nat>): set<nat> {
    if offers == [] then {} else
      var k := |offers| - 1;
      Jumped(w, offers[..k]) + if Jumps(After(w, offers[..k]), offers[k]) then {offers[k]} else {}
  }

  /** Callers pass widened uint32 values, so the sentinel is never offered. */
  ghost predicate Proper(offers: seq<nat>) {
    forall i :: 0 <= i < |offers| ==> offers[i] < EMPTY
  }

  /** The window is the set of recorded numbers within `size` of the highest accepted one, and nothing else. */
  ghost predicate Represents(w: Window, recorded: set<nat>, jumped: set<nat>) {
    && (w.high == EMPTY ==> recorded == jumped == {} && w.marks == {})
    && (w.high != EMPTY ==>
          && w.high in recorded + jumped
          && (forall n :: n in recorded + jumped ==> n <= w.high))
    && (forall p: nat :: p in w.marks <==> p < w.size && p <= w.high && w.high - p in recorded)
  }

  lemma OfferRepresents(w: Window, recorded: set<nat>, jumped: set<nat>, n: nat)
    requires w.size >= 1 && n < EMPTY
    requires Represents(w, recorded, jumped)
    ensures Check(w, n) && !Jumps(w, n) ==> Represents(Offer(w, n), recorded + {n}, jumped)
    ensures Jumps(w, n) ==> Represents(Offer(w, n), recorded, jumped + {n})
    ensures !Check(w, n) ==> Represents(Offer(w, n), recorded, jumped)
  {
  }

  /** The bitmap agrees with the run's history, whatever was offered. */
  lemma {:induction false} RunRepresents(size: nat, offers: seq<nat>)
    requires Proper(offers)
    ensures After(Fresh(size), offers).size == Fresh(size).size
    ensures Represents(After(Fresh(size), offers), Recorded(Fresh(size), offers), Jumped(Fresh(size), offers))
  {
    if offers != [] {
      var k := |offers| - 1;
      var w := Fresh(size);
      RunRepresents(size, offers[..k]);
      var r, j := Recorded(w, offers[..k]), Jumped(w, offers[..k]);
      OfferRepresents(After(w, offers[..k]), r, j, offers[k]);
      assert r + {} == r && j + {} == j;
    }
  }

  /** Each number is accepted once, plus once more if and only if it made a jump and came again. */
  lemma {:induction false} CountExact(size: nat, offers: seq<nat>, n: nat)
    requires Proper(offers)
    ensures Count(Fresh(size), offers, n)
         == (if n in Recorded(Fresh(size), offers) then 1 else 0) + (if n in Jumped(Fresh(size), offers) then 1 else 0)
  {
    if offers != [] {
      var k := |offers| - 1;
      CountExact(size, offers[..k], n);
      RunRepresents(size, offers[..k]);
    }
  }

  /** A number that made no jump is accepted at most once; every number at most twice. */
  lemma AcceptedAtMostTwice(size: nat, offers: seq<nat>, n: nat)
    requires Proper(offers)
    ensures Count(Fresh(size), offers, n) <= 2
    ensures n !in Jumped(Fresh(size), offers) ==> Count(Fresh(size), offers, n) <= 1
  {
    CountExact(size, offers, n);
  }

  lemma RepresentsRejection(w: Window, recorded: set<nat>, jumped: set<nat>, n: nat)
    requires Represents(w, recorded, jumped) && !Check(w, n)
    ensures n in recorded || n + w.size <= w.high
  {
  }

  lemma RepresentsMark(w: Window, recorded: set<nat>, jumped: set<nat>, p: nat)
    requires Represents(w, recorded, jumped) && p in w.marks
    ensures p <= w.high && w.high - p in recorded
  {
  }

  /** No false rejection: what is refused was accepted before or lies `size` or more below the highest. */
  lemma RejectionJustified(size: nat, offers: seq<nat>, n: nat)
    requires Proper(offers)
    requires !Check(After(Fresh(size), offers), n)
    ensures Count(Fresh(size), offers, n) > 0 || n + Fresh(size).size <= After(Fresh(size), offers).high
  {
    hide *;
    var w := Fresh(size);
    RunRepresents(size, offers);
    RepresentsRejection(After(w, offers), Recorded(w, offers), Jumped(w, offers), n);
    CountExact(size, offers, n);
  }

  lemma {:induction false} NeverOffered(w: Window, offers: seq<nat>, n: nat)
    requires n !in offers
    ensures Count(w, offers, n) == 0
  {
    if offers != [] {
      NeverOffered(w, offers[..|offers| - 1], n);
    }
  }

  /** A number that never came before is accepted exactly above the lower edge of the window. */
  lemma NewAcceptedIff(size: nat, offers: seq<nat>, n: nat)
    requires Proper(offers) && n !in offers
    ensures var w := After(Fresh(size), offers);
            Check(w, n) <==> w.high == EMPTY || n > w.high - w.size
    ensures After(Fresh(size), offers).size == Fresh(size).size
  {
    var w := After(Fresh(size), offers);
    RunRepresents(size, offers);
    NeverOffered(Fresh(size), offers, n);
    if !Check(w, n) {
      RejectionJustified(size, offers, n);
    }
  }

  /** A set bit at distance p means that high - p was accepted. */
  lemma MarkJustified(size: nat, offers: seq<nat>, p: nat)
    requires Proper(offers)
    requires p in After(Fresh(size), offers).marks
    ensures p <= After(Fresh(size), offers).high
    ensures Count(Fresh(size), offers, After(Fresh(size), offers).high - p) > 0
  {
    hide *;
    var w := Fresh(size);
    RunRepresents(size, offers);
    RepresentsMark(After(w, offers), Recorded(w, offers), Jumped(w, offers), p);
    CountExact(size, offers, After(w, offers).high - p);
  }

  /** A run only ever grows its history. */
  lemma {:induction false} HistoryGrows(w: Window, offers: seq<nat>, more: seq<nat>)
    ensures Recorded(w, offers) <= Recorded(w, offers + more)
    ensures forall n :: Count(w, offers, n) <= Count(w, offers + more, n)
  {
    if more == [] {
      assert offers + more == offers;
    } else {
      var k := |more| - 1;
      HistoryGrows(w, offers, more[..k]);
      assert (offers + more)[..|offers| + k] == offers + more[..k];
    }
  }

  /** A number once accepted never jumps afterwards. */
  lemma {:induction false} NoLateJump(size: nat, offers: seq<nat>, more: seq<nat>, n: nat)
    requires Proper(offers) && Proper(more)
    requires n in Recorded(Fresh(size), offers)
    ensures n in Jumped(Fresh(size), offers + more) ==> n in Jumped(Fresh(size), offers)
  {
    if more == [] {
      assert offers + more == offers;
    } else {
      var k := |more| - 1;
      NoLateJump(size, offers, more[..k], n);
      assert (offers + more)[..|offers| + k] == offers + more[..k];
      assert n <= After(Fresh(size), offers + more[..k]).high by {
        HistoryGrows(Fresh(size), offers, more[..k]);
        RunRepresents(size, offers + more[..k]);
      }
    }
  }

  lemma RecordedOnce(size: nat, offers: seq<nat>, more: seq<nat>, n: nat)
    requires Proper(offers) && Proper(more)
    requires n in Recorded(Fresh(size), offers)
    ensures Count(Fresh(size), offers + more, n) == Count(Fresh(size), offers, n)
  {
    HistoryGrows(Fresh(size), offers, more);
    NoLateJump(size, offers, more, n);
    CountExact(size, offers, n);
    CountExact(size, offers + more, n);
  }

  /** The run `offers`, continued by `more`, accepts n again. */
  ghost predicate AcceptsAgain(size: nat, offers: seq<nat>, more: seq<nat>, n: nat) {
    Proper(more) && Count(Fresh(size), offers + more, n) > Count(Fresh(size), offers, n)
  }

  /** An accepted number can be accepted again, in some continuation, if and only if its acceptance was a jump. */
  lemma ReplayableIffJump(size: nat, offers: seq<nat>, n: nat)
    requires Proper(offers) && n < EMPTY
    requires Check(After(Fresh(size), offers), n)
    ensures (exists more :: AcceptsAgain(size, offers + [n], more, n)) <==> Jumps(After(Fresh(size), offers), n)
  {
    var w := Fresh(size);
    var sofar := offers + [n];
    assert sofar[..|offers|] == offers;
    if Jumps(After(w, offers), n) {
      var again := sofar + [n];
      assert again[..|sofar|] == sofar;
      assert AcceptsAgain(size, sofar, [n], n) by {
        RunRepresents(size, offers);
        assert After(w, sofar).marks == {} && After(w, sofar).high == n;
      }
    } else {
      forall more | AcceptsAgain(size, sofar, more, n)
        ensures false
      {
        RecordedOnce(size, sofar, more, n);
      }
    }
  }

  // ---- A sender that uses up its 32-bit sequence numbers ----

  /** The numbers of n frames sealed under one key: the low 32 bits of the send counter. */
  function Counter(n: nat): (s: seq<nat>)
    ensures |s| == n
  {
    if n == 0 then [] else Counter(n - 1) + [(n - 1) % TWO32]
  }

  function Least(a: nat, b: nat): nat { if a < b then a else b }

  /** What the window refuses it goes on refusing. */
  lemma RefusedStays(w: Window, n: nat, m: nat)
    requires !Check(w, n) && m < EMPTY
    ensures !Check(Add(w, m), n)
  {
    if m > w.high && !Jumps(w, m) {
      var p := m - n;
      assert p < w.size ==> Moved(w.marks, m - w.high, p);
    }
  }

  /** A recorded number is refused for good. */
  lemma RecordedRefused(w: Window, recorded: set<nat>, jumped: set<nat>, m: nat)
    requires Represents(w, recorded, jumped) && m in recorded
    ensures !Check(w, m)
  {
    assert w.high - (w.high - m) == m;
  }

  /** The number after the highest is accepted, and recorded. */
  lemma NextAccepted(w: Window, m: nat)
    requires w.size >= 64 && m < EMPTY && (w.high == EMPTY || m == w.high + 1)
    ensures Check(w, m) && !Jumps(w, m) && Add(w, m).high == m
  {
  }

  lemma RunLast(w: Window, offers: seq<nat>, m: nat)
    ensures After(w, offers + [m]) == Offer(After(w, offers), m)
    ensures Recorded(w, offers + [m])
         == Recorded(w, offers) + if Check(After(w, offers), m) && !Jumps(After(w, offers), m) then {m} else {}
  {
    assert (offers + [m])[..|offers|] == offers;
  }

  /** After n frames in order: the highest number reached, and every number so far recorded. */
  ghost predicate Counted(size: nat, offers: seq<nat>, n: nat) {
    && Proper(offers)
    && After(Fresh(size), offers).high == (if n == 0 then EMPTY else Least(n, TWO32) - 1)
    && forall m :: 0 <= m < Least(n, TWO32) ==> m in Recorded(Fresh(size), offers)
  }

  lemma CountedNext(size: nat, offers: seq<nat>, n: nat)
    requires Counted(size, offers, n) && n < TWO32
    ensures Check(After(Fresh(size), offers), n) && Counted(size, offers + [n], n + 1)
  {
    hide After, Recorded, Check, Jumps, Add;
    NextAccepted(After(Fresh(size), offers), n) by { RunRepresents(size, offers); }
    RunLast(Fresh(size), offers, n);
  }

  lemma CountedWrapped(size: nat, offers: seq<nat>, n: nat, m: nat)
    requires Counted(size, offers, n) && n >= TWO32 && m < TWO32
    ensures !Check(After(Fresh(size), offers), m) && Counted(size, offers + [m], n + 1)
  {
    hide After, Recorded, Check, Jumps, Add, Represents;
    RunRepresents(size, offers);
    RecordedRefused(After(Fresh(size), offers), Recorded(Fresh(size), offers), Jumped(Fresh(size), offers), m);
    RunLast(Fresh(size), offers, m);
  }

  lemma CountedStart(size: nat)
    ensures Counted(size, [], 0)
  {
  }

  lemma {:induction false} CounterCounted(size: nat, n: nat)
    ensures Counted(size, Counter(n), n)
  {
    hide Counted, After, Check;
    if n == 0 {
      CountedStart(size);
    } else {
      CounterCounted(size, n - 1);
      if n - 1 < TWO32 {
        CountedNext(size, Counter(n - 1), n - 1);
      } else {
        CountedWrapped(size, Counter(n - 1), n - 1, (n - 1) % TWO32);
      }
    }
  }

  lemma {:induction false} CounterPrefix(n: nat, i: nat)
    requires i < n
    ensures Counter(n)[..i] == Counter(i) && Counter(n)[i] == i % TWO32
  {
    assert Counter(n)[..n - 1] == Counter(n - 1);
    if i < n - 1 {
      CounterPrefix(n - 1, i);
      assert Counter(n)[..i] == Counter(n - 1)[..i];
    }
  }

  lemma CounterChecked(size: nat, i: nat)
    ensures Check(After(Fresh(size), Counter(i)), i % TWO32) <==> i < TWO32
  {
    hide Counter, Counted, Check, After;
    CounterCounted(size, i);
    if i < TWO32 {
      CountedNext(size, Counter(i), i);
    } else {
      CountedWrapped(size, Counter(i), i, i % TWO32);
    }
  }

  /**
   * Delivered in order and without loss, exactly the first 2^32 frames of a key are accepted; every later
   * one is refused.
   */
  lemma AcceptedUntilWrap(size: nat, n: nat, i: nat)
    requires i < n
    ensures |Counter(n)| == n && (Accepted(Fresh(size), Counter(n), i) <==> i < TWO32)
  {
    hide Counter, Check, After, Fresh;
    CounterPrefix(n, i);
    CounterChecked(size, i);
  }
}
