/** The Noise XK handshake, taken as ideal: section 7.5 of the Noise Protocol Framework, revision 34. */
module NoiseXK {
  import opened Bytes

  /** An X25519 public key. */
  type Point = e: Bytes | |e| == 32 witness seq(32, _ => 0)

  /** The ephemeral keys of one completed handshake; the transport keys are derived from them. */
  datatype Pair = Pair(client: Point, server: Point)

  /**
   * The three messages as functions of the keys that go into them, and what the reader of each
   * makes of a byte string. The first message carries a payload, the third the client's static key.
   */
  datatype Noise = Noise(
    write1: (Point, Bytes) -> Bytes,
    read1: Bytes -> Option<(Point, Bytes)>,
    write2: (Point, Point) -> Bytes,
    read2: (Point, Bytes) -> Option<Point>,
    write3: (Point, Point, Point) -> Bytes,
    read3: (Point, Point, Bytes) -> Option<Point>)

  /** Reading succeeds exactly on the matching message of the matching handshake. */
  ghost predicate Ideal(n: Noise) {
    && (forall e, p :: n.read1(n.write1(e, p)) == Some((e, p)) && |n.write1(e, p)| == 48 + |p|)
    && (forall b :: n.read1(b).Some? ==> b == n.write1(n.read1(b).value.0, n.read1(b).value.1))
    && (forall c, s :: n.read2(c, n.write2(c, s)) == Some(s) && 32 < |n.write2(c, s)| <= 128)
    && (forall c, b :: n.read2(c, b).Some? ==> b == n.write2(c, n.read2(c, b).value))
    && (forall c, s, k :: n.read3(c, s, n.write3(c, s, k)) == Some(k) && |n.write3(c, s, k)| <= 128)
    && (forall c, s, b :: n.read3(c, s, b).Some? ==> b == n.write3(c, s, n.read3(c, s, b).value))
    && (forall c, s, c', s' :: n.write2(c, s) == n.write2(c', s') ==> c == c' && s == s')
    && (forall c, s, k, c', s', k' :: n.write3(c, s, k) == n.write3(c', s', k') ==> c == c' && s == s')
  }

  /** An ideal handshake: every message lists its keys. */
  function Listing(): Noise {
    Noise(
      (e: Point, p: Bytes) => e + seq(16, _ => 0) + p,
      (b: Bytes) => if |b| >= 48 && b[32..48] == seq(16, _ => 0) then Some((b[..32], b[48..])) else None,
      (c: Point, s: Point) => c + s,
      (c: Point, b: Bytes) => if |b| == 64 && b[..32] == c then Some(b[32..]) else None,
      (c: Point, s: Point, k: Point) => c + s + k,
      (c: Point, s: Point, b: Bytes) => if |b| == 96 && b[..64] == c + s then Some(b[64..]) else None)
  }

  lemma IdealExists()
    ensures Ideal(Listing())
  {
    var n := Listing();
    forall e: Point, p: Bytes
      ensures n.read1(n.write1(e, p)) == Some((e, p)) && |n.write1(e, p)| == 48 + |p|
    {
      var b := n.write1(e, p);
      assert b[..32] == e && b[32..48] == seq(16, _ => 0) && b[48..] == p;
    }
    forall b | n.read1(b).Some?
      ensures b == n.write1(n.read1(b).value.0, n.read1(b).value.1)
    {
      assert b == b[..32] + b[32..48] + b[48..];
    }
    forall c: Point, s: Point
      ensures n.read2(c, n.write2(c, s)) == Some(s)
    {
      assert (c + s)[..32] == c && (c + s)[32..] == s;
    }
    forall c: Point, s: Point, c': Point, s': Point | n.write2(c, s) == n.write2(c', s')
      ensures c == c' && s == s'
    {
      assert c == (c + s)[..32] && c' == (c' + s')[..32];
      assert s == (c + s)[32..] && s' == (c' + s')[32..];
    }
    forall c: Point, s: Point, k: Point
      ensures n.read3(c, s, n.write3(c, s, k)) == Some(k)
    {
      assert (c + s + k)[..64] == c + s && (c + s + k)[64..] == k;
    }
    forall c: Point, s: Point, k: Point, c': Point, s': Point, k': Point | n.write3(c, s, k) == n.write3(c', s', k')
      ensures c == c' && s == s'
    {
      assert c == (c + s + k)[..32] && c' == (c' + s' + k')[..32];
      assert s == (c + s + k)[32..64] && s' == (c' + s' + k')[32..64];
    }
  }
}
