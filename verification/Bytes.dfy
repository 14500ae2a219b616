/** Bytes, results, and the big-endian integers of encoding/binary. */
module Bytes {

  type Byte = b: nat | b < 256
  type Bytes = seq<Byte>

  datatype Option<+T> = None | Some(value: T)

  const TWO16: nat := 0x1_0000
  const TWO32: nat := 0x1_0000_0000

  /** PutUint16 of `uint16(v)`. */
  function Put16(v: nat): (s: Bytes)
    ensures |s| == 2
  {
    [v / 256 % 256, v % 256]
  }

  /** PutUint32 of `uint32(v)`. */
  function Put32(v: nat): (s: Bytes)
    ensures |s| == 4
  {
    Put16(v / TWO16) + Put16(v)
  }

  function Get16(s: Bytes): (v: nat)
    requires |s| == 2
    ensures v < TWO16
  {
    256 * (s[0] as int) + s[1]
  }

  function Get32(s: Bytes): (v: nat)
    requires |s| == 4
    ensures v < TWO32
  {
    TWO16 * Get16(s[..2]) + Get16(s[2..])
  }

  lemma GetPut16(v: nat)
    ensures Get16(Put16(v)) == v % TWO16
  {
  }

  lemma GetPut32(v: nat)
    ensures Get32(Put32(v)) == v % TWO32
  {
    var s := Put32(v);
    assert s[..2] == Put16(v / TWO16) && s[2..] == Put16(v);
    hide Put16, Get16;
    GetPut16(v / TWO16);
    GetPut16(v);
    Halves(v);
  }

  lemma Halves(v: nat)
    ensures TWO16 * (v / TWO16 % TWO16) + v % TWO16 == v % TWO32
  {
    var q, r := v / TWO32, v % TWO32;
    assert v == TWO32 * q + r;
    assert v / TWO16 == TWO16 * q + r / TWO16;
  }

  lemma PutGet16(s: Bytes)
    requires |s| == 2
    ensures Put16(Get16(s)) == s
  {
  }

  lemma SplitHalves(h: nat, l: nat)
    requires l < TWO16
    ensures (TWO16 * h + l) / TWO16 == h
    ensures Put16(TWO16 * h + l) == Put16(l)
  {
    assert TWO16 * h + l == 256 * (256 * h + l / 256) + l % 256;
    assert (TWO16 * h + l) / 256 == 256 * h + l / 256;
  }

  lemma PutGet32(s: Bytes)
    requires |s| == 4
    ensures Put32(Get32(s)) == s
  {
    hide Put16, Get16;
    var hi, lo := s[..2], s[2..];
    PutGet16(hi);
    PutGet16(lo);
    SplitHalves(Get16(hi), Get16(lo));
    assert s == hi + lo;
  }

  // ---- The most significant byte comes first ----

  /** The number in the two bytes from `at` on. */
  function Duo(s: Bytes, at: nat): nat
    requires at + 2 <= |s|
  {
    0x100 * (s[at] as int) + s[at + 1]
  }

  /** The number in the four bytes from `at` on. */
  function Quad(s: Bytes, at: nat): nat
    requires at + 4 <= |s|
  {
    0x100_0000 * (s[at] as int) + 0x1_0000 * (s[at + 1] as int) + 0x100 * (s[at + 2] as int) + s[at + 3]
  }

  lemma GetsDuo(s: Bytes, at: nat)
    requires at + 2 <= |s|
    ensures Get16(s[at..at + 2]) == Duo(s, at)
  {
  }

  lemma GetsQuad(s: Bytes, at: nat)
    requires at + 4 <= |s|
    ensures Get32(s[at..at + 4]) == Quad(s, at)
  {
    var q := s[at..at + 4];
    assert q[..2] == [s[at], s[at + 1]] && q[2..] == [s[at + 2], s[at + 3]];
  }

  lemma PutsDuo(s: Bytes, at: nat, v: nat)
    requires at + 2 <= |s| && s[at..at + 2] == Put16(v)
    ensures Duo(s, at) == v % TWO16
  {
    hide Put16, Get16, Duo;
    GetsDuo(s, at);
    GetPut16(v);
  }

  lemma PutsQuad(s: Bytes, at: nat, v: nat)
    requires at + 4 <= |s| && s[at..at + 4] == Put32(v)
    ensures Quad(s, at) == v % TWO32
  {
    hide Put32, Get32, Quad;
    GetsQuad(s, at);
    GetPut32(v);
  }
}
