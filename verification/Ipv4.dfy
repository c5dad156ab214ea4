/** IPv4 addresses as 32-bit numbers, networks, and big-endian bytes. */
module Ipv4 {

  type byte = b: int | 0 <= b < 256
  type Bytes = seq<byte>

  const SPACE := 0x1_0000_0000

  type Addr = a: int | 0 <= a < SPACE
  type Bits = b: int | 0 <= b <= 32

  // ---- protocol numbers and group addresses ----

  const ICMP := 1
  const IGMP := 2
  const TCP := 6
  const UDP := 17

  const LIMITED: Addr := 0xffff_ffff
  const MULTICAST := Prefix(0xe000_0000, 4)

  function Pow2(n: nat): (p: nat)
    ensures p > 0
  {
    if n == 0 then 1 else 2 * Pow2(n - 1)
  }

  lemma {:induction false} Pow2Adds(m: nat, n: nat)
    ensures Pow2(m + n) == Pow2(m) * Pow2(n)
  {
    if m > 0 {
      Pow2Adds(m - 1, n);
      Twice(Pow2(m - 1), Pow2(n));
    }
  }

  lemma Twice(a: nat, b: nat)
    ensures 2 * (a * b) == (2 * a) * b
  {
  }

  lemma Pow2Of32()
    ensures Pow2(32) == SPACE
  {
    assert Pow2(8) == 256;
    Pow2Adds(8, 8);
    Pow2Adds(16, 16);
  }

  /** A network; its size divides the address space. */
  datatype Prefix = Prefix(addr: Addr, bits: Bits) {
    function Size(): (n: nat)
      ensures n > 0
    {
      Pow2(32 - bits)
    }

    /** The network with the host bits cleared. */
    function Masked(): (p: Prefix)
      ensures p.bits == bits && p.addr <= addr
    {
      BlockStart(addr, Size());
      Prefix(addr - addr % Size(), bits)
    }

    predicate Contains(a: Addr)
    {
      a / Size() == addr / Size()
    }

    lemma SizeDivides()
      ensures exists k: nat :: k * Size() == SPACE
    {
      Pow2Adds(bits, 32 - bits);
      Pow2Of32();
      assert Pow2(bits) * Size() == SPACE;
    }

    /** The highest address, which is the broadcast address. */
    function Last(): Addr
    {
      SizeDivides();
      ghost var k: nat :| k * Size() == SPACE;
      assert Masked().addr + Size() <= SPACE by { BlockFits(addr, Size(), k); }
      Masked().addr + Size() - 1
    }

    /** A network is the interval from its masked address to its last one. */
    lemma ContainsIsInterval(a: Addr)
      ensures Contains(a) <==> Masked().addr <= a <= Last()
    {
      var s, q := Size(), addr / Size();
      BlockStart(addr, s);
      if a / s == q { BlockStart(a, s); }
      if q * s <= a < q * s + s { QuotientIs(a, s, q); }
    }
  }

  lemma Times(a: int, b: int, s: int)
    requires a <= b && s >= 0
    ensures a * s <= b * s
  {
  }

  lemma BlockStart(a: nat, s: nat)
    requires s > 0
    ensures 0 <= a % s <= a && a - a % s == a / s * s
  {
    assert a == a / s * s + a % s;
    Times(0, a / s, s);
  }

  lemma QuotientIs(a: int, s: int, q: int)
    requires s > 0 && q * s <= a < q * s + s
    ensures a / s == q
  {
    var d := a / s;
    assert a == d * s + a % s;
    if d < q {
      Times(d + 1, q, s);
    } else if d > q {
      Times(q + 1, d, s);
    }
  }

  lemma BlockFits(a: nat, s: nat, k: nat)
    requires s > 0 && a < k * s
    ensures a - a % s + s <= k * s
  {
    var q := a / s;
    assert a == q * s + a % s;
    if q >= k {
      Times(k, q, s);
    } else {
      Times(q + 1, k, s);
    }
  }

  // ---- big-endian numbers in byte strings ----

  function Word(b: Bytes, i: nat): (w: int)
    requires i + 2 <= |b|
    ensures 0 <= w < 0x1_0000
  {
    (b[i] as int) * 256 + b[i + 1] as int
  }

  /** A number as PutUint16 writes it: cut to 16 bits. */
  function WordBytes(w: nat): (b: Bytes)
    ensures |b| == 2 && Word(b, 0) == w % 0x1_0000
  {
    [w / 256 % 256, w % 256]
  }

  function AddrAt(b: Bytes, i: nat): Addr
    requires i + 4 <= |b|
  {
    Word(b, i) * 0x1_0000 + Word(b, i + 2)
  }

  function AddrBytes(a: Addr): (b: Bytes)
    ensures |b| == 4 && AddrAt(b, 0) == a
  {
    WordBytes(a / 0x1_0000) + WordBytes(a)
  }
}
