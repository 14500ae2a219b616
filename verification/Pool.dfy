/** The server's address pool: `ipPool` in internal/session/server.go. IPv4 addresses are numbers below 2^32. */
module AddressPool {
  import opened Bytes
  import opened Words

  datatype Subnet = Subnet(base: nat, prefix: nat) {
    /** A masked IPv4 network that NewManager accepts. */
    predicate Valid() {
      2 <= prefix <= 32 && base < TWO32 && base % Pow2(32 - prefix) == 0
    }

    function Size(): nat
      requires prefix <= 32
    {
      Pow2(32 - prefix)
    }

    /** The network address with its last octet incremented, modulo 256. */
    function Gateway(): nat {
      base - base % 256 + (base % 256 + 1) % 256
    }

    predicate Contains(a: nat)
      requires prefix <= 32
    {
      base <= a < base + Size()
    }

    /** An address the pool hands out: not the network, the broadcast or the gateway address. */
    predicate Host(a: nat)
      requires prefix <= 32
    {
      base < a < base + Size() - 1 && a != Gateway()
    }
  }

  /** The scan of `alloc`, from offset i on. */
  function Scan(n: Subnet, used: set<nat>, i: nat): Option<nat>
    requires n.prefix <= 32
    decreases n.Size() - 2 - i
  {
    if i > n.Size() - 2 then None
    else if n.base + i == n.Gateway() || n.base + i in used then Scan(n, used, i + 1)
    else Some(n.base + i)
  }

  function FirstFree(n: Subnet, used: set<nat>): Option<nat>
    requires n.prefix <= 32
  {
    Scan(n, used, 1)
  }

  lemma {:induction false} ScanLeast(n: Subnet, used: set<nat>, i: nat)
    requires n.prefix <= 32 && i >= 1
    ensures var r := Scan(n, used, i);
            && (r.Some? ==> n.Host(r.value) && r.value >= n.base + i && r.value !in used)
            && (forall a: nat :: n.Host(a) && n.base + i <= a && (r.Some? ==> a < r.value) ==> a in used)
    decreases n.Size() - 2 - i
  {
    if i <= n.Size() - 2 {
      ScanLeast(n, used, i + 1);
    }
  }

  /** The pool gives out the least unused host address, and fails exactly when every one is in use. */
  lemma FirstFreeIsLeast(n: Subnet, used: set<nat>, a: nat)
    requires n.prefix <= 32
    ensures FirstFree(n, used) == Some(a) <==>
              n.Host(a) && a !in used && forall b: nat :: n.Host(b) && b < a ==> b in used
    ensures FirstFree(n, used) == None <==> forall b: nat :: n.Host(b) ==> b in used
  {
    ScanLeast(n, used, 1);
  }

  /** The network ends within 32 bits, so the sums in the scan do not wrap. */
  lemma FitsIn32(n: Subnet)
    requires n.Valid()
    ensures n.base + n.Size() <= TWO32
  {
    hide Pow2;
    PowSplit(32 - n.prefix, n.prefix);
    Pow32();
    MultipleFits(n.base, Pow2(32 - n.prefix), Pow2(n.prefix));
  }

  lemma NoWrap(v: nat)
    requires v < TWO32
    ensures v % TWO32 == v
  {
  }

  lemma MultipleFits(v: nat, m: nat, t: nat)
    requires m >= 1 && v % m == 0 && v < m * t
    ensures v + m <= m * t
  {
    Exact(v, m);
    MultiplesApart(m, v / m, t);
  }

  lemma Exact(v: nat, m: nat)
    requires m >= 1 && v % m == 0
    ensures v == m * (v / m)
  {
  }

  lemma MultiplesApart(m: nat, q: nat, t: nat)
    requires m * q < m * t
    ensures m * q + m <= m * t
  {
    if q >= t {
      MulMono(m, t, q);
    } else {
      MulMono(m, q + 1, t);
      assert m * (q + 1) == m * q + m;
    }
  }

  lemma MulMono(m: nat, a: nat, b: nat)
    requires a <= b
    ensures m * a <= m * b
  {
  }

  lemma {:induction false} PowSplit(a: nat, b: nat)
    ensures Pow2(a) * Pow2(b) == Pow2(a + b)
  {
    if a != 0 {
      PowSplit(a - 1, b);
      assert Pow2(a) * Pow2(b) == 2 * (Pow2(a - 1) * Pow2(b));
    }
  }

  lemma Pow32()
    ensures Pow2(32) == TWO32
  {
    assert Pow2(8) == 0x100;
    assert Pow2(16) == 0x1_0000;
    assert Pow2(24) == 0x100_0000;
  }

  /** For every prefix up to 31 the gateway is the first address after the network's. */
  lemma GatewayFirst(n: Subnet)
    requires n.Valid() && n.prefix <= 31
    ensures n.Gateway() == n.base + 1
  {
    assert n.base % 2 == 0 by {
      ModHalf(n.base, Pow2(31 - n.prefix));
    }
    EvenOctet(n.base);
  }

  lemma EvenOctet(v: nat)
    requires v % 2 == 0
    ensures v % 256 <= 254
  {
    assert v == 2 * (128 * (v / 256)) + v % 256;
  }

  // ---- Capacity ----

  /** The addresses in use after k calls on an empty pool. */
  function AfterAllocs(n: Subnet, k: nat): set<nat>
    requires n.prefix <= 32
  {
    if k == 0 then {}
    else
      var before := AfterAllocs(n, k - 1);
      match FirstFree(n, before)
      case Some(a) => before + {a}
      case None => before
  }

  function Capacity(n: Subnet): nat
    requires n.prefix <= 32
  {
    if n.prefix >= 31 then 0 else SizeAtLeast(n); n.Size() - 3
  }

  lemma SizeAtLeast(n: Subnet)
    requires n.prefix <= 30
    ensures n.Size() >= 4
  {
    assert Pow2(32 - n.prefix) == 2 * Pow2(31 - n.prefix) == 4 * Pow2(30 - n.prefix);
  }

  /** From empty, the k-th call hands out the k-th address after the gateway, until 2^(32-p) - 3 are gone. */
  lemma {:induction false} AllocsExact(n: Subnet, k: nat)
    requires n.Valid()
    ensures forall a: nat :: a in AfterAllocs(n, k) <==>
              n.base + 2 <= a < n.base + 2 + (if k < Capacity(n) then k else Capacity(n))
    ensures FirstFree(n, AfterAllocs(n, k)) == if k < Capacity(n) then Some(n.base + 2 + k) else None
  {
    if n.prefix <= 31 {
      GatewayFirst(n);
    }
    if n.prefix <= 30 {
      SizeAtLeast(n);
    } else {
      assert n.prefix == 31 ==> n.Size() == 2;
      assert n.prefix == 32 ==> n.Size() == 1;
    }
    if k != 0 {
      AllocsExact(n, k - 1);
    }
    FirstFreeIsLeast(n, AfterAllocs(n, k), n.base + 2 + k);
  }

  class IpPool {
    const network: Subnet
    const gateway: nat
    var used: set<nat>

    ghost predicate Valid()
    {
      network.Valid() && gateway == network.Gateway()
    }

    constructor (n: Subnet)
      requires n.Valid()
      ensures Valid() && network == n && used == {}
    {
      network := n;
      gateway := n.Gateway();
      used := {};
    }

    /**
     * `requestedIP` is never set on the server, so callers pass None; a preferred address may be any but
     * the gateway.
     */
    method Alloc(preferred: Option<nat>) returns (r: Option<nat>)
      requires Valid()
      modifies this`used
      ensures var wanted := preferred.Some? && preferred.value != gateway && network.Contains(preferred.value)
                            && preferred.value !in old(used);
              r == if wanted then preferred else FirstFree(network, old(used))
      ensures used == old(used) + if r.Some? then {r.value} else {}
    {
      if preferred.Some? && preferred.value != gateway && network.Contains(preferred.value) {
        if preferred.value !in used {
          used := used + {preferred.value};
          return preferred;
        }
      }
      FitsIn32(network);
      hide Pow2, Subnet.Valid;
      var hosts := Pow2(32 - network.prefix) - 2;
      var i := 1;
      while i <= hosts
        invariant 1 <= i
        invariant used == old(used)
        invariant Scan(network, used, 1) == Scan(network, used, i)
      {
        var cand := (network.base + i) % TWO32;
        NoWrap(network.base + i);
        if cand != gateway && cand !in used {
          used := used + {cand};
          return Some(cand);
        }
        i := i + 1;
      }
      return None;
    }

    method Release(a: nat)
      modifies this`used
      ensures used == old(used) - {a}
    {
      used := used - {a};
    }
  }
}
