/** The multi-word bitmap behind the anti-replay window. */
module ReplayWindows {
  import opened Words
  import opened ReplaySpec

  /** Bit p of the bitmap. */
  predicate BitAt(bits: seq<Word>, p: nat)
    requires p < 64 * |bits|
  {
    Bit(bits[p / 64], p % 64)
  }

  function Marks(bits: seq<Word>): set<nat> {
    set p: nat | p < 64 * |bits| && BitAt(bits, p)
  }

  /** The value `shiftUp` stores in word i, in terms of the bitmap it was given. */
  function ShiftedWord(bits: seq<Word>, n: nat, i: nat): Word
    requires i < |bits|
  {
    var words, rem := n / 64, n % 64;
    if i < words then 0
    else if rem == 0 then bits[i - words]
    else if i == words then Shl(bits[0], rem)
    else
      OrWord(Shl(bits[i - words], rem), Shr(bits[i - words - 1], 64 - rem));
      Or(Shl(bits[i - words], rem), Shr(bits[i - words - 1], 64 - rem))
  }

  lemma ShiftedBit(bits: seq<Word>, n: nat, i: nat, k: nat)
    requires i < |bits| && k < 64
    ensures Bit(ShiftedWord(bits, n, i), k) == (64 * i + k >= n && BitAt(bits, 64 * i + k - n))
  {
    var words, rem := n / 64, n % 64;
    if i < words {
      BitZero(k);
    } else {
      var low := bits[i - words];
      BitShl(low, rem, k);
      if k >= rem {
        assert 64 * i + k - n == 64 * (i - words) + (k - rem);
        At(bits, i - words, k - rem);
      } else if i > words {
        assert 64 * i + k - n == 64 * (i - words - 1) + (64 - rem + k);
        At(bits, i - words - 1, 64 - rem + k);
      }
      if rem != 0 && i > words {
        var high := bits[i - words - 1];
        BitOr(Shl(low, rem), Shr(high, 64 - rem), k);
        BitShr(high, 64 - rem, k);
        Pow64();
        if k >= rem {
          BitHigh(high, 64, 64 - rem + k);
        }
      }
    }
  }

  lemma ShiftedAll(was: seq<Word>, now: seq<Word>, n: nat)
    requires |now| == |was|
    requires forall i :: 0 <= i < |now| ==> now[i] == ShiftedWord(was, n, i)
    ensures forall p: nat :: p < 64 * |now| ==> BitAt(now, p) == (p >= n && BitAt(was, p - n))
  {
    forall p: nat | p < 64 * |now|
      ensures BitAt(now, p) == (p >= n && BitAt(was, p - n))
    {
      ShiftedBit(was, n, p / 64, p % 64);
    }
  }

  lemma At(bits: seq<Word>, i: nat, k: nat)
    requires i < |bits| && k < 64
    ensures BitAt(bits, 64 * i + k) == Bit(bits[i], k)
  {
  }

  /**
   * Shifts the bitmap towards higher positions, in place. The loop runs downwards, so the
   * words it reads at or below i still hold their old values.
   */
  method ShiftUp(bits: array<Word>, n: nat)
    modifies bits
    ensures forall p: nat :: p < 64 * bits.Length ==>
              BitAt(bits[..], p) == (p >= n && BitAt(old(bits[..]), p - n))
  {
    var words, rem := n / 64, n % 64;
    var nw := bits.Length;
    ghost var was := bits[..];
    if words >= nw {
      Clear(bits);
      ShiftedAll(was, bits[..], n);
      return;
    }
    var i := nw - 1;
    while i >= 0
      invariant -1 <= i < nw
      invariant forall j :: 0 <= j <= i ==> bits[j] == was[j]
      invariant forall j :: i < j < nw ==> bits[j] == ShiftedWord(was, n, j)
    {
      var v: Word := 0;
      if i - words >= 0 {
        v := bits[i - words];
      }
      if rem != 0 {
        v := Shl(v, rem);
        if i - words - 1 >= 0 {
          OrWord(v, Shr(bits[i - words - 1], 64 - rem));
          v := Or(v, Shr(bits[i - words - 1], 64 - rem));
        } else if i < words {
          ShlZero(rem);
        }
      }
      bits[i] := v;
      i := i - 1;
    }
    ShiftedAll(was, bits[..], n);
  }

  lemma {:induction false} ShlZero(n: nat)
    ensures Shl(0, n) == 0
  {
    if n != 0 {
      ShlZero(n - 1);
    }
  }

  method Clear(bits: array<Word>)
    modifies bits
    ensures forall i :: 0 <= i < bits.Length ==> bits[i] == 0
  {
    for i := 0 to bits.Length
      invariant forall j :: 0 <= j < i ==> bits[j] == 0
    {
      bits[i] := 0;
    }
  }

  lemma ClearedMarks(bits: seq<Word>)
    requires forall i :: 0 <= i < |bits| ==> bits[i] == 0
    ensures Marks(bits) == {}
  {
    forall p: nat | p < 64 * |bits|
      ensures !BitAt(bits, p)
    {
      BitZero(p % 64);
    }
  }

  /** The abstract shift is what the bitwise one does to the marks. */
  lemma ShiftedMarks(was: seq<Word>, now: seq<Word>, n: nat)
    requires |now| == |was|
    requires forall p: nat :: p < 64 * |now| ==> BitAt(now, p) == (p >= n && BitAt(was, p - n))
    ensures Marks(now) == ShiftMarks(Marks(was), n, 64 * |was|)
  {
  }

  /** `bits[p/64] |= 1 << (p%64)` marks p and nothing else. */
  method SetBit(bits: array<Word>, p: nat)
    requires p < 64 * bits.Length
    modifies bits
    ensures Marks(bits[..]) == Marks(old(bits[..])) + {p}
  {
    ghost var was := bits[..];
    OrWord(bits[p / 64], Shl(1, p % 64));
    bits[p / 64] := Or(bits[p / 64], Shl(1, p % 64));
    forall q: nat | q < 64 * bits.Length
      ensures BitAt(bits[..], q) == (q == p || BitAt(was, q))
    {
      if q / 64 == p / 64 {
        MaskSet(was[p / 64], p % 64, q % 64);
      }
    }
  }

  class ReplayWindow {
    const size: nat
    var high: Word
    const bits: array<Word>

    ghost predicate Valid()
      reads this, bits
    {
      size >= 64 && 64 * bits.Length == size
    }

    ghost function View(): Window
      requires Valid()
      reads this, bits
    {
      Window(size, high, Marks(bits[..]))
    }

    constructor (size: Word)
      ensures Valid() && fresh(bits)
      ensures View() == Fresh(size)
    {
      var s := if size < 64 then 64 else size;
      s := s - s % 64;
      this.size := s;
      high := EMPTY;
      bits := new Word[s / 64](_ => 0);
      new;
      ClearedMarks(bits[..]);
    }

    method Check(n: Word) returns (ok: bool)
      requires Valid()
      ensures ok == ReplaySpec.Check(View(), n)
    {
      if high == EMPTY {
        return true;
      }
      if n > high {
        return true;
      }
      var diff := high - n;
      if diff >= size {
        return false;
      }
      MaskTest(bits[diff / 64], diff % 64);
      return And(bits[diff / 64], Shl(1, diff % 64)) == 0;
    }

    method Add(n: Word)
      requires Valid()
      modifies this, bits
      ensures Valid()
      ensures View() == ReplaySpec.Add(old(View()), n)
    {
      hide Marks, ShiftMarks, Shl, Or;
      ghost var was := bits[..];
      if high == EMPTY {
        high := n;
        SetBit(bits, 0);
        return;
      }
      if n <= high {
        var diff := high - n;
        if diff < size {
          SetBit(bits, diff);
        }
        return;
      }
      var slide := n - high;
      if slide >= size {
        Clear(bits);
        ClearedMarks(bits[..]);
        high := n;
        return;
      }
      ShiftUp(bits, slide);
      ShiftedMarks(was, bits[..], slide);
      SetBit(bits, 0);
      high := n;
    }
  }
}
