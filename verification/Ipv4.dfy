/** IPv4 prefixes as the tunnel uses them: containment, the two broadcast computations
    (internal/storage/user.go:375-383, internal/tunnelapp/tunnelapp.go:1053-1061) and the
    least-free address search (internal/storage/user.go:346-373). */
module Ipv4 {
  import opened Prelude

  const SPACE := 0x1_0000_0000

  predicate IsIP(a: int) { 0 <= a < SPACE }

  datatype Prefix = Prefix(addr: int, bits: int)

  /** `IsValid() && Addr().Is4()`. */
  predicate ValidPrefix(p: Prefix) { IsIP(p.addr) && 0 <= p.bits <= 32 }

  function Pow2(n: nat): (r: int)
    ensures r >= 1
  {
    if n == 0 then 1 else 2 * Pow2(n - 1)
  }

  // ---------------------------------------------------------------- bits of a number

  /** `x >> k`. */
  function Shr(x: int, k: nat): int
    decreases k
  {
    if k == 0 then x else Shr(x / 2, k - 1)
  }

  /** `x` with its low `k` bits cleared, and with them set (`x | ((1 << k) - 1)`). */
  function ClearLow(x: int, k: nat): int
    decreases k
  {
    if k == 0 then x else 2 * ClearLow(x / 2, k - 1)
  }

  function FillLow(x: int, k: nat): int
    decreases k
  {
    if k == 0 then x else 2 * FillLow(x / 2, k - 1) + 1
  }

  /** `x | (1 << k)`. */
  function SetBit(x: int, k: nat): int
    decreases k
  {
    if k == 0 then x / 2 * 2 + 1 else 2 * SetBit(x / 2, k - 1) + x % 2
  }

  lemma {:induction false} FillIsClearPlus(x: int, k: nat)
    ensures FillLow(x, k) == ClearLow(x, k) + Pow2(k) - 1
    ensures FillLow(ClearLow(x, k), k) == FillLow(x, k)
    ensures ClearLow(x, k) <= x <= FillLow(x, k)
    decreases k
  {
    if k > 0 {
      FillIsClearPlus(x / 2, k - 1);
    }
  }

  lemma {:induction false} SameHighBits(a: int, x: int, k: nat)
    ensures Shr(a, k) == Shr(x, k) <==> ClearLow(x, k) <= a <= FillLow(x, k)
    decreases k
  {
    if k > 0 {
      SameHighBits(a / 2, x / 2, k - 1);
    }
  }

  lemma {:induction false} FillBound(x: int, k: nat, n: nat)
    requires 0 <= x < Pow2(n) && k <= n
    ensures 0 <= ClearLow(x, k) && FillLow(x, k) < Pow2(n)
    decreases k
  {
    if k > 0 {
      FillBound(x / 2, k - 1, n - 1);
    }
  }

  // ---------------------------------------------------------------- prefixes

  function HostBits(p: Prefix): (r: nat)
    requires ValidPrefix(p)
  {
    32 - p.bits
  }

  /** `Masked().Addr()`. */
  function Network(p: Prefix): int
    requires ValidPrefix(p)
  {
    ClearLow(p.addr, HostBits(p))
  }

  /** The last address of the block that starts at the network address. */
  function Broadcast(p: Prefix): int
    requires ValidPrefix(p)
  {
    Network(p) + Pow2(HostBits(p)) - 1
  }

  /** Go's `Prefix.Contains`: the leading `bits` bits agree; an invalid prefix contains nothing. */
  predicate Contains(p: Prefix, a: int) {
    ValidPrefix(p) && IsIP(a) && Shr(a, HostBits(p)) == Shr(p.addr, HostBits(p))
  }

  /** A prefix contains exactly the addresses from its network to its broadcast address. */
  lemma ContainsRange(p: Prefix, a: int)
    requires ValidPrefix(p) && IsIP(a)
    ensures Contains(p, a) <==> Network(p) <= a <= Broadcast(p)
  {
    SameHighBits(a, p.addr, HostBits(p));
    FillIsClearPlus(p.addr, HostBits(p));
  }

  /** In numbers: a prefix of `bits` bits is the block of 2^(32-bits) addresses around its own. */
  lemma ContainsIsBlock(p: Prefix, a: int)
    requires ValidPrefix(p) && IsIP(a)
    ensures var size := Pow2(32 - p.bits);
            && Network(p) == p.addr / size * size && Broadcast(p) == Network(p) + size - 1
            && (Contains(p, a) <==> a / size == p.addr / size)
  {
    ShrDivides(a, 32 - p.bits);
    ShrDivides(p.addr, 32 - p.bits);
  }

  lemma {:induction false} ShrDivides(x: int, k: nat)
    ensures Shr(x, k) == x / Pow2(k) && ClearLow(x, k) == x / Pow2(k) * Pow2(k)
    decreases k
  {
    if k > 0 {
      ShrDivides(x / 2, k - 1);
      HalvesDivide(x, Pow2(k - 1));
      var q := x / 2 / Pow2(k - 1);
      assert 2 * (q * Pow2(k - 1)) == q * (2 * Pow2(k - 1));
    }
  }

  lemma HalvesDivide(x: int, m: int)
    requires m >= 1
    ensures x / 2 / m == x / (2 * m)
  {
    var q, r := x / 2 / m, x / 2 % m;
    assert x / 2 == q * m + r;
    var t := 2 * r + x % 2;
    assert x == q * (2 * m) + t by { assert q * (2 * m) == 2 * (q * m); }
    assert 0 <= t < 2 * m;
    DivUnique(x, 2 * m, q, t);
  }

  lemma DivUnique(x: int, n: int, q: int, t: int)
    requires 0 <= t < n && x == q * n + t
    ensures x / n == q
  {
    var d := x / n - q;
    assert x / n * n == q * n + d * n;
    assert d * n == t - x % n;
    Multiples(d, n);
  }

  lemma Multiples(d: int, n: int)
    requires n >= 1
    ensures d >= 1 ==> d * n >= n
    ensures d <= -1 ==> d * n <= -n
  {
    if d >= 1 { assert (d - 1) * n >= 0; } else if d <= -1 { assert (-d - 1) * n >= 0; }
  }

  lemma SpaceIsPow2()
    ensures Pow2(32) == SPACE
  {
    assert Pow2(6) == 64;
    assert Pow2(10) == 1024;
    assert Pow2(16) == 0x1_0000;
    assert Pow2(22) == 0x40_0000;
    assert Pow2(28) == 0x1000_0000;
  }

  lemma BroadcastInSpace(p: Prefix)
    requires ValidPrefix(p)
    ensures IsIP(Network(p)) && IsIP(Broadcast(p)) && Network(p) <= Broadcast(p)
  {
    SpaceIsPow2();
    FillBound(p.addr, HostBits(p), 32);
    FillIsClearPlus(p.addr, HostBits(p));
  }

  // ---------------------------------------------------------------- the two broadcast forms

  predicate IsByte(b: int) { 0 <= b < 256 }

  /** `hi` above an `m`-bit low part. */
  function Above(hi: int, lo: int, m: nat): int
    decreases m
  {
    if m == 0 then hi else 2 * Above(hi, lo / 2, m - 1) + lo % 2
  }

  function Cat(hi: int, lo: int): int { hi * 256 + lo }

  function Shl(x: int, k: nat): int
    decreases k
  {
    if k == 0 then x else 2 * Shl(x, k - 1)
  }

  lemma {:induction false} AboveIsSum(hi: int, lo: int, m: nat)
    requires 0 <= lo < Pow2(m)
    ensures Above(hi, lo, m) == Shl(hi, m) + lo
    decreases m
  {
    if m > 0 {
      AboveIsSum(hi, lo / 2, m - 1);
    }
  }

  lemma AboveByte(hi: int, lo: int)
    requires IsByte(lo)
    ensures Above(hi, lo, 8) == Cat(hi, lo)
  {
    assert Pow2(4) == 16 && Pow2(8) == 256;
    AboveIsSum(hi, lo, 8);
    assert Shl(hi, 4) == 16 * hi;
    assert Shl(hi, 8) == 256 * hi;
  }

  /** Setting bit `k` extends a filled low part by one bit. */
  lemma {:induction false} SetExtends(b: int, k: nat)
    ensures SetBit(FillLow(b, k), k) == FillLow(b, k + 1)
    decreases k
  {
    if k > 0 {
      var f := FillLow(b / 2, k - 1);
      SetExtends(b / 2, k - 1);
      assert FillLow(b, k) == 2 * f + 1 && FillLow(b, k + 1) == 2 * FillLow(b / 2, k) + 1;
      assert SetBit(2 * f + 1, k) == 2 * SetBit(f, k - 1) + 1;
    }
  }

  /** Filling past the low part fills all of it and then the high part. */
  lemma {:induction false} FillAbove(hi: int, lo: int, m: nat, i: nat)
    ensures i <= m ==> FillLow(Above(hi, lo, m), i) == Above(hi, FillLow(lo, i), m)
    ensures i > m ==> FillLow(Above(hi, lo, m), i) == Above(FillLow(hi, i - m), FillLow(lo, m), m)
    decreases m
  {
    if m > 0 && i > 0 {
      FillAbove(hi, lo / 2, m - 1, i - 1);
      var x, l := Above(hi, lo / 2, m - 1), lo / 2;
      HalfOf(x, lo % 2);
      assert FillLow(Above(hi, lo, m), i) == 2 * FillLow(x, i - 1) + 1;
      if i <= m {
        HalfOf(FillLow(l, i - 1), 1);
        assert FillLow(lo, i) == 2 * FillLow(l, i - 1) + 1;
      } else {
        HalfOf(FillLow(l, m - 1), 1);
        assert FillLow(lo, m) == 2 * FillLow(l, m - 1) + 1;
      }
    }
  }

  lemma HalfOf(x: int, r: int)
    requires 0 <= r < 2
    ensures (2 * x + r) / 2 == x && (2 * x + r) % 2 == r
  {
  }

  function Min(a: nat, b: nat): nat { if a < b then a else b }

  function Drop(a: nat, b: nat): nat { if a < b then 0 else a - b }

  lemma FillOne(hi: int, lo: int, i: nat)
    requires IsByte(lo)
    ensures FillLow(Cat(hi, lo), i) == Cat(FillLow(hi, Drop(i, 8)), FillLow(lo, Min(i, 8)))
  {
    AboveByte(hi, lo);
    FillAbove(hi, lo, 8, i);
    assert Pow2(4) == 16 && Pow2(8) == 256;
    FillBound(lo, Min(i, 8), 8);
    FillIsClearPlus(lo, Min(i, 8));
    if i <= 8 {
      AboveByte(hi, FillLow(lo, i));
    } else {
      AboveByte(FillLow(hi, i - 8), FillLow(lo, 8));
    }
  }

  /** The byte of weight `256^j` after `i` steps of the loop: how far into its own eight bits the
      filling has come. */
  function ByteAfter(b: int, i: nat, j: nat): int { FillLow(b, Min(Drop(i, 8 * j), 8)) }

  lemma ByteStep(b: int, i: nat, j: nat)
    ensures i / 8 == j ==> SetBit(ByteAfter(b, i, j), i % 8) == ByteAfter(b, i + 1, j)
    ensures i / 8 != j ==> ByteAfter(b, i, j) == ByteAfter(b, i + 1, j)
  {
    if i / 8 == j {
      SetExtends(b, i % 8);
    }
  }

  /** The four bytes of an address, most significant first. */
  function AddrOf(b0: int, b1: int, b2: int, b3: int): int {
    Cat(Cat(Cat(b0, b1), b2), b3)
  }

  /** Byte by byte, the address is filled as one number. */
  lemma FillBytes(b0: int, b1: int, b2: int, b3: int, i: nat)
    requires IsByte(b1) && IsByte(b2) && IsByte(b3) && i <= 32
    ensures FillLow(AddrOf(b0, b1, b2, b3), i)
         == AddrOf(ByteAfter(b0, i, 3), ByteAfter(b1, i, 2), ByteAfter(b2, i, 1), ByteAfter(b3, i, 0))
  {
    var h2 := Cat(b0, b1);
    var h1 := Cat(h2, b2);
    FillOne(h1, b3, i);
    FillOne(h2, b2, Drop(i, 8));
    FillOne(b0, b1, Drop(i, 16));
    assert Drop(Drop(i, 8), 8) == Drop(i, 16) && Drop(Drop(i, 16), 8) == Drop(i, 24);
  }

  function Byte0(x: int): int { x / 256 / 256 / 256 }
  function Byte1(x: int): int { x / 256 / 256 % 256 }
  function Byte2(x: int): int { x / 256 % 256 }
  function Byte3(x: int): int { x % 256 }

  lemma BytesOf(x: int)
    ensures AddrOf(Byte0(x), Byte1(x), Byte2(x), Byte3(x)) == x
    ensures IsByte(Byte1(x)) && IsByte(Byte2(x)) && IsByte(Byte3(x))
  {
    assert Cat(Byte0(x), Byte1(x)) == x / 256 / 256;
    assert Cat(x / 256 / 256, Byte2(x)) == x / 256;
    assert Cat(x / 256, Byte3(x)) == x;
  }

  predicate FilledTo(b: seq<int>, net: int, i: nat) {
    && |b| == 4
    && b[0] == ByteAfter(Byte0(net), i, 3) && b[1] == ByteAfter(Byte1(net), i, 2)
    && b[2] == ByteAfter(Byte2(net), i, 1) && b[3] == ByteAfter(Byte3(net), i, 0)
  }

  lemma FillStep(b: seq<int>, net: int, i: nat)
    requires FilledTo(b, net, i) && i < 32
    ensures FilledTo(b[3 - i / 8 := SetBit(b[3 - i / 8], i % 8)], net, i + 1)
  {
    ByteStep(Byte0(net), i, 3);
    ByteStep(Byte1(net), i, 2);
    ByteStep(Byte2(net), i, 1);
    ByteStep(Byte3(net), i, 0);
  }

  lemma FillDone(b: seq<int>, net: int, i: nat)
    requires FilledTo(b, net, i) && i <= 32
    ensures AddrOf(b[0], b[1], b[2], b[3]) == FillLow(net, i)
  {
    BytesOf(net);
    FillBytes(Byte0(net), Byte1(net), Byte2(net), Byte3(net), i);
  }

  /** `lastAddr`: set the host bits of the masked address, one by one, in a four-byte array. */
  method LastAddr(p: Prefix) returns (last: int)
    requires ValidPrefix(p)
    ensures last == Broadcast(p)
  {
    var net := Network(p);
    var b := new int[4];
    b[0], b[1], b[2], b[3] := Byte0(net), Byte1(net), Byte2(net), Byte3(net);
    var host := 32 - p.bits;
    var i := 0;
    while i < host
      invariant 0 <= i <= host && FilledTo(b[..], net, i)
    {
      FillStep(b[..], net, i);
      b[3 - i / 8] := SetBit(b[3 - i / 8], i % 8);
      i := i + 1;
    }
    FillDone(b[..], net, host);
    FillIsClearPlus(p.addr, host);
    last := AddrOf(b[0], b[1], b[2], b[3]);
  }

  /** `subnetBroadcast`: no address for an invalid prefix or a single host. */
  function SubnetBroadcast(p: Prefix): Option<int> {
    if !ValidPrefix(p) || p.bits >= 32 then None else Some(FillLow(p.addr, HostBits(p)))
  }

  /** The 32-bit form agrees with the byte-wise loop on every prefix shorter than 32, whether or
      not the prefix was masked first. */
  lemma BroadcastFormsAgree(p: Prefix)
    requires ValidPrefix(p) && p.bits < 32
    ensures SubnetBroadcast(p) == Some(Broadcast(p))
    ensures SubnetBroadcast(Prefix(Network(p), p.bits)) == Some(Broadcast(p))
  {
    BroadcastInSpace(p);
    FillIsClearPlus(p.addr, HostBits(p));
  }

  // ---------------------------------------------------------------- address allocation

  /** What `allocTunIP` may hand out. */
  predicate Free(pool: Prefix, gateway: Option<TunIP>, used: set<TunIP>, a: TunIP)
    requires ValidPrefix(pool)
  {
    && Contains(pool, a.v) && a.v != Network(pool) && a.v != Broadcast(pool)
    && gateway != Some(a) && a !in used
  }

  datatype Alloc = BadPool | PoolFull | Got(ip: TunIP)

  /** `allocTunIP`: the least free address; failure exactly when there is none. */
  method AllocTunIP(pool: Prefix, gateway: Option<TunIP>, used: set<TunIP>) returns (r: Alloc)
    ensures r.BadPool? <==> !ValidPrefix(pool)
    ensures r.Got? ==> ValidPrefix(pool) && Free(pool, gateway, used, r.ip)
    ensures r.Got? ==> forall b: TunIP | b.v < r.ip.v :: !Free(pool, gateway, used, b)
    ensures r.PoolFull? ==> ValidPrefix(pool) && forall b: TunIP :: !Free(pool, gateway, used, b)
    // in numbers: between the network and the broadcast address, and the first not taken
    ensures r.Got? ==> Network(pool) < r.ip.v < Broadcast(pool) && gateway != Some(r.ip) && r.ip !in used
    ensures forall a | ValidPrefix(pool) && Network(pool) < a < (if r.Got? then r.ip.v else Broadcast(pool)) ::
              gateway == Some(TunIP(a)) || TunIP(a) in used
  {
    if !ValidPrefix(pool) {
      return BadPool;
    }
    var broadcast := LastAddr(pool);
    BroadcastInSpace(pool);
    var addr := Network(pool) + 1;
    forall a | Network(pool) < a < broadcast ensures Contains(pool, a) { ContainsRange(pool, a); }
    forall b: TunIP | Free(pool, gateway, used, b)
      ensures Network(pool) < b.v < broadcast
    {
      ContainsRange(pool, b.v);
    }
    while Contains(pool, addr)
      invariant Network(pool) < addr && (Network(pool) + 1 < addr ==> addr <= broadcast)
      invariant forall a | Network(pool) < a < addr :: gateway == Some(TunIP(a)) || TunIP(a) in used
      invariant forall b: TunIP | b.v < addr :: !Free(pool, gateway, used, b)
      decreases SPACE - addr
    {
      if addr == broadcast {
        break;
      }
      if gateway == Some(TunIP(addr)) || TunIP(addr) in used {
        addr := addr + 1;
        continue;
      }
      return Got(TunIP(addr));
    }
    if IsIP(addr) {
      ContainsRange(pool, addr);
    }
    return PoolFull;
  }
}
