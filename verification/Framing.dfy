/** The inner plaintext of a session frame, and traffic shaping: internal/framing/framing.go. */
module Framing {
  import opened Bytes
  import Words

  const NONCE_LEN: nat := 12
  const TAG_LEN: nat := 16
  const HEADER_LEN: nat := 11
  const MAX_WIRE: nat := 65507
  const MAX_INNER: nat := MAX_WIRE - NONCE_LEN - TAG_LEN

  type Tag = t: Bytes | |t| == 4 witness [0, 0, 0, 0]

  /** `num` is the frame's sequence number. */
  datatype Frame = Frame(tag: Tag, typ: Byte, num: nat, payload: Bytes)

  /** The plaintext that `Seal` lays out; the length field is `uint16(len(payload))`. */
  function Inner(tag: Tag, typ: Byte, num: nat, payload: Bytes, padding: Bytes): (s: Bytes)
    ensures |s| == HEADER_LEN + |payload| + |padding|
  {
    tag + [typ] + Put32(num) + Put16(|payload|) + payload + padding
  }

  /** None is ErrShort. */
  function ParseInner(inner: Bytes): Option<Frame> {
    if |inner| < HEADER_LEN then None
    else
      var plen := Get16(inner[9..11]);
      if HEADER_LEN + plen > |inner| then None
      else Some(Frame(inner[..4], inner[4], Get32(inner[5..9]), inner[HEADER_LEN..HEADER_LEN + plen]))
  }

  /** The receiver recovers every field and drops the padding, but a payload only modulo its 16-bit length. */
  lemma ParseSealed(tag: Tag, typ: Byte, num: nat, payload: Bytes, padding: Bytes)
    ensures ParseInner(Inner(tag, typ, num, payload, padding))
         == Some(Frame(tag, typ, num % TWO32, payload[..|payload| % TWO16]))
  {
    var s := Inner(tag, typ, num, payload, padding);
    assert s[..4] == tag && s[4] == typ && s[5..9] == Put32(num) && s[9..11] == Put16(|payload|);
    GetPut32(num);
    GetPut16(|payload|);
    var n := |payload| % TWO16;
    assert s[HEADER_LEN..HEADER_LEN + n] == payload[..n];
  }

  /** So the payload survives if and only if it fits the length field. */
  lemma PayloadSurvivesIff(tag: Tag, typ: Byte, num: nat, payload: Bytes, padding: Bytes)
    ensures ParseInner(Inner(tag, typ, num, payload, padding)).Some?
    ensures ParseInner(Inner(tag, typ, num, payload, padding)).value.payload == payload <==> |payload| < TWO16
  {
    ParseSealed(tag, typ, num, payload, padding);
  }

  /** Everything that parses is the layout of the frame it parses to, with the rest as padding. */
  lemma ParsedIsInner(inner: Bytes)
    requires ParseInner(inner).Some?
    ensures var f := ParseInner(inner).value;
            |f.payload| < TWO16 && f.num < TWO32
            && Inner(f.tag, f.typ, f.num, f.payload, inner[HEADER_LEN + |f.payload|..]) == inner
  {
    var f := ParseInner(inner).value;
    PutGet32(inner[5..9]);
    PutGet16(inner[9..11]);
    assert inner == inner[..4] + [inner[4]] + inner[5..9] + inner[9..11] + inner[HEADER_LEN..];
    assert inner[HEADER_LEN..] == f.payload + inner[HEADER_LEN + |f.payload|..];
  }

  /** Where each field lies, most significant byte first. */
  lemma InnerBytes(tag: Tag, typ: Byte, num: nat, payload: Bytes, padding: Bytes)
    ensures var s := Inner(tag, typ, num, payload, padding);
            && |s| == 11 + |payload| + |padding|
            && s[..4] == tag && s[4] == typ && Quad(s, 5) == num % TWO32 && Duo(s, 9) == |payload| % TWO16
            && s[11..11 + |payload|] == payload && s[11 + |payload|..] == padding
  {
    hide Put32, Put16, Quad, Duo;
    var s := Inner(tag, typ, num, payload, padding);
    assert s[5..9] == Put32(num) && s[9..11] == Put16(|payload|);
    PutsQuad(s, 5, num);
    PutsDuo(s, 9, |payload|);
  }

  /** What parses, told from the bytes: a header, and the payload that it announces. */
  lemma ParseInnerExact(inner: Bytes)
    ensures ParseInner(inner).Some? <==> |inner| >= 11 && 11 + Duo(inner, 9) <= |inner|
    ensures ParseInner(inner).Some? ==>
              ParseInner(inner).value == Frame(inner[..4], inner[4], Quad(inner, 5), inner[11..11 + Duo(inner, 9)])
  {
    hide Get16, Get32, Duo, Quad;
    if |inner| >= 11 {
      GetsQuad(inner, 5);
      GetsDuo(inner, 9);
    }
  }

  /** Copies src into buf at offset `off`, as `copy(buf[off:], src)`. */
  method Copy(buf: array<Byte>, off: nat, src: Bytes)
    requires off + |src| <= buf.Length
    modifies buf
    ensures buf[..] == old(buf[..off]) + src + old(buf[off + |src|..])
  {
    for i := 0 to |src|
      invariant buf[..] == old(buf[..off]) + src[..i] + old(buf[off + i..])
    {
      buf[off + i] := src[i];
    }
  }

  /** A buffer that holds `head` from `from` on holds one more piece after a copy just behind it. */
  lemma Appended(was: Bytes, now: Bytes, from: nat, head: Bytes, piece: Bytes)
    requires from + |head| + |piece| <= |was| && was[from..from + |head|] == head
    requires var off := from + |head|; now == was[..off] + piece + was[off + |piece|..]
    ensures now[from..from + |head| + |piece|] == head + piece
  {
    var off := from + |head|;
    assert now[from..off] == was[from..off] && now[off..off + |piece|] == piece;
    assert now[from..off + |piece|] == now[from..off] + now[off..off + |piece|];
  }

  /** Copies the piece just behind what is already there. */
  method Append(buf: array<Byte>, from: nat, ghost head: Bytes, off: nat, piece: Bytes)
    requires off == from + |head| && off + |piece| <= buf.Length && buf[from..off] == head
    modifies buf
    ensures buf[from..off + |piece|] == head + piece
  {
    ghost var was := buf[..];
    Copy(buf, off, piece);
    Appended(was, buf[..], from, head, piece);
  }

  /** Fills the pooled buffer after the nonce; slicing the buffer panics if the frame would not fit. */
  method FillInner(buf: array<Byte>, tag: Tag, typ: Byte, num: nat, payload: Bytes, padding: Bytes)
    requires NONCE_LEN + HEADER_LEN + |payload| + |padding| + TAG_LEN <= buf.Length
    modifies buf
    ensures buf[NONCE_LEN..NONCE_LEN + HEADER_LEN + |payload| + |padding|] == Inner(tag, typ, num, payload, padding)
  {
    hide Put32, Put16;
    Append(buf, NONCE_LEN, [], NONCE_LEN, tag);
    Append(buf, NONCE_LEN, tag, NONCE_LEN + 4, [typ]);
    Append(buf, NONCE_LEN, tag + [typ], NONCE_LEN + 5, Put32(num));
    Append(buf, NONCE_LEN, tag + [typ] + Put32(num), NONCE_LEN + 9, Put16(|payload|));
    Append(buf, NONCE_LEN, tag + [typ] + Put32(num) + Put16(|payload|), NONCE_LEN + HEADER_LEN, payload);
    Append(buf, NONCE_LEN, tag + [typ] + Put32(num) + Put16(|payload|) + payload,
           NONCE_LEN + HEADER_LEN + |payload|, padding);
  }

  // ---- Shaping ----

  /** The padding strategy; every other setting of the string means `None`. */
  datatype Mode = NoPadding | Pad | Bucket | Random | Web

  const INT_MAX: int := 0x7FFF_FFFF_FFFF_FFFF

  /** Go's int, and its uint32. */
  type Int = v: int | -INT_MAX - 1 <= v <= INT_MAX
  type Uint32 = v: nat | v < TWO32

  datatype Shaping = Shaping(mode: Mode, padTo: Int, bucket: Int, randMax: Int)

  /** The values that successive calls of `randN` draw. */
  datatype Draws = Draws(first: Uint32, second: Uint32, third: Uint32)

  /** `v + 1`, which wraps. */
  function Increment(v: Int): Int {
    if v == INT_MAX then -INT_MAX - 1 else v + 1
  }

  function RandN(max: Int, draw: Uint32): (n: nat)
    ensures max > 0 ==> n < max
    ensures n <= draw
  {
    if max <= 0 then 0 else draw % max
  }

  function WebWireSize(d: Draws): (n: nat)
    ensures 53 <= n <= 1499
  {
    var r := RandN(100, d.first);
    if r < 35 then 53 + RandN(97, d.second)
    else if r < 65 then 150 + RandN(250, d.second)
    else if r < 85 then 400 + RandN(400, d.second)
    else if r < 95 then 800 + RandN(400, d.second)
    else 1200 + RandN(300, d.second)
  }

  function PaddingFor(s: Shaping, innerLen: nat, d: Draws): nat {
    match s.mode
    case Pad =>
      var target := s.padTo - NONCE_LEN - TAG_LEN;
      var capped := if target > MAX_INNER then MAX_INNER else target;
      if s.padTo > 0 && innerLen < capped then capped - innerLen else 0
    case Bucket =>
      if s.bucket > 0 then
        var total := NONCE_LEN + TAG_LEN + innerLen;
        var r := total % s.bucket;
        if r > 0 && total + (s.bucket - r) <= MAX_WIRE then s.bucket - r else 0
      else 0
    case Random => if s.randMax > 0 then RandN(Increment(s.randMax), d.first) else 0
    case Web =>
      var min := NONCE_LEN + TAG_LEN + innerLen;
      var target := WebWireSize(d);
      if min < target <= MAX_WIRE then target - min else RandN(17, d.third)
    case NoPadding => 0
  }

  function Natural(innerLen: nat): nat {
    NONCE_LEN + TAG_LEN + innerLen
  }

  function WireLen(s: Shaping, innerLen: nat, d: Draws): nat {
    NONCE_LEN + TAG_LEN + innerLen + PaddingFor(s, innerLen, d)
  }

  function Min(a: int, b: int): int { if a < b then a else b }

  function Max(a: int, b: int): int { if a > b then a else b }

  /** Without a mode, or with one whose setting is not positive, a frame has 28 bytes more than it carries. */
  lemma PlainWireLen(s: Shaping, innerLen: nat, d: Draws)
    requires || s.mode == NoPadding || (s.mode == Pad && s.padTo <= 0) || (s.mode == Bucket && s.bucket <= 0)
             || (s.mode == Random && s.randMax <= 0)
    ensures WireLen(s, innerLen, d) == Natural(innerLen) == innerLen + 28
  {
  }

  /** "pad" gives every shorter frame one and the same size, and leaves longer frames alone. */
  lemma PadWireLen(s: Shaping, innerLen: nat, d: Draws)
    requires s.mode == Pad
    ensures WireLen(s, innerLen, d) == Max(Natural(innerLen), Min(s.padTo, MAX_WIRE))
  {
  }

  /** "bucket" rounds up to the next multiple, unless that passes MaxWire. */
  lemma BucketWireLen(s: Shaping, innerLen: nat, d: Draws, k: nat)
    requires s.mode == Bucket && s.bucket > 0
    requires s.bucket * (k - 1) < Natural(innerLen) <= s.bucket * k
    ensures WireLen(s, innerLen, d) == if s.bucket * k <= MAX_WIRE then s.bucket * k else Natural(innerLen)
  {
    var total, b := Natural(innerLen), s.bucket;
    assert b * (k - 1) == b * k - b;
    if total == b * k {
      Words.ModUnique(total, b, k, 0);
    } else {
      assert k >= 1;
      Words.ModUnique(total, b, k - 1, total - b * (k - 1));
    }
  }

  /** The deterministic modes never push a frame past the pooled buffer. */
  lemma ClampedModes(s: Shaping, innerLen: nat, d: Draws)
    requires s.mode in {NoPadding, Pad, Bucket}
    requires innerLen <= MAX_INNER
    ensures WireLen(s, innerLen, d) <= MAX_WIRE
  {
  }

  /** The sizes of TLS records that "web" imitates, by the first draw modulo 100: the least and the greatest. */
  function WebRange(r: nat): (nat, nat) {
    if r < 35 then (53, 149) else if r < 65 then (150, 399) else if r < 85 then (400, 799)
    else if r < 95 then (800, 1199) else (1200, 1499)
  }

  /** The first draw picks one of the five ranges, and the second any size in it. */
  lemma WebSampled(d: Draws, n: nat)
    ensures var (lo, hi) := WebRange(d.first % 100);
            && WebWireSize(d) == lo + d.second % (hi + 1 - lo)
            && (lo <= n <= hi <==> exists second: Uint32 :: WebWireSize(d.(second := second)) == n)
  {
    var (lo, hi) := WebRange(d.first % 100);
    if lo <= n <= hi {
      Words.ModUnique(n - lo, hi + 1 - lo, 0, n - lo);
      assert WebWireSize(d.(second := n - lo)) == n;
    }
  }

  /** A frame gets the size sampled if it is smaller; otherwise it grows by the third draw modulo 17. */
  lemma WebExact(s: Shaping, innerLen: nat, d: Draws)
    requires s.mode == Web
    ensures WireLen(s, innerLen, d) == if innerLen + 28 < WebWireSize(d) then WebWireSize(d)
                                       else innerLen + 28 + d.third % 17
  {
  }

  /** "random" grows it by the draw modulo RandMax + 1, where that does not wrap. */
  lemma RandomExact(s: Shaping, innerLen: nat, d: Draws)
    requires s.mode == Random && s.randMax > 0
    ensures WireLen(s, innerLen, d)
         == innerLen + 28 + if s.randMax == INT_MAX then 0 else d.first % (s.randMax + 1)
  {
  }

  lemma WebWireLen(s: Shaping, innerLen: nat, d: Draws)
    requires s.mode == Web
    ensures WireLen(s, innerLen, d) <= Max(1499, Natural(innerLen) + 16)
  {
  }

  /** The most padding a mode without a cap can draw: a 32-bit number, and at most RandMax. */
  function MostDrawn(s: Shaping): nat {
    match s.mode
    case Web => 16
    case Random => if s.randMax <= 0 || s.randMax == INT_MAX then 0 else Min(s.randMax, TWO32 - 1)
    case _ => 0
  }

  lemma RandomAtMost(s: Shaping, innerLen: nat, d: Draws)
    requires s.mode == Random
    ensures WireLen(s, innerLen, d) <= Natural(innerLen) + MostDrawn(s)
  {
  }

  function WorstDraw(s: Shaping): Draws {
    if s.mode == Web then Draws(0, 0, 16) else Draws(MostDrawn(s), 0, 0)
  }

  lemma WorstDrawn(s: Shaping, innerLen: nat)
    requires s.mode == Random || (s.mode == Web && Natural(innerLen) >= 1499)
    ensures WireLen(s, innerLen, WorstDraw(s)) == Natural(innerLen) + MostDrawn(s)
  {
    if s.mode == Random && MostDrawn(s) > 0 {
      Words.ModUnique(MostDrawn(s), s.randMax + 1, 0, MostDrawn(s));
    }
  }

  /** "web" and "random" fit the buffer for every draw exactly when as much slack is left as they may draw. */
  lemma UnclampedModes(s: Shaping, innerLen: nat)
    requires s.mode == Web || s.mode == Random
    ensures (forall d :: WireLen(s, innerLen, d) <= MAX_WIRE) <==> Natural(innerLen) + MostDrawn(s) <= MAX_WIRE
  {
    if Natural(innerLen) + MostDrawn(s) > MAX_WIRE {
      WorstDrawn(s, innerLen);
      assert WireLen(s, innerLen, WorstDraw(s)) > MAX_WIRE;
    } else {
      forall d
        ensures WireLen(s, innerLen, d) <= MAX_WIRE
      {
        if s.mode == Web {
          WebWireLen(s, innerLen, d);
        } else {
          RandomAtMost(s, innerLen, d);
        }
      }
    }
  }
}
