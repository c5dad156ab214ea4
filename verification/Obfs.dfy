/** internal/obfs/obfs.go: the parameters of a room that its secret determines,
    from the 64 bytes derived for them. */
module Obfs {
  import opened Ipv4

  const QUARTER := 0x4000_0000
  const MAX_TRANSPORT_PADDING := 32
  const MIN_PADDING := 12

  type Derived = r: Bytes | |r| == 64 witness seq(64, _ => 0)

  /** Both ends are part of it. */
  datatype Range = Range(lo: nat, hi: nat)

  datatype Profile = Profile(headers: seq<Range>, paddings: seq<nat>)

  function Uint16(n: int): nat { n % 0x1_0000 }

  function Uint32(n: int): nat { n % 0x1_0000_0000 }

  function Uint64(n: int): nat { n % 0x1_0000_0000_0000_0000 }

  // ---- the order of the quarters ----

  function Swapped(s: seq<nat>, i: nat, j: nat): (t: seq<nat>)
    requires i < |s| && j < |s|
    ensures |t| == |s|
  {
    s[i := s[j]][j := s[i]]
  }

  /** The rest of the shuffle, from index i down to 1. */
  function Shuffled(order: seq<nat>, r: Derived, i: nat): (t: seq<nat>)
    requires |order| == 4 && i < 4
    ensures |t| == 4
    decreases i
  {
    if i == 0 then order else Shuffled(Swapped(order, i, r[i] % (i + 1)), r, i - 1)
  }

  const IN_ORDER: seq<nat> := [0, 1, 2, 3]

  function Order(r: Derived): seq<nat>
  {
    Shuffled(IN_ORDER, r, 3)
  }

  /** Each quarter once. */
  predicate IsOrder(order: seq<nat>)
  {
    |order| == 4
    && (forall i :: 0 <= i < 4 ==> order[i] < 4)
    && forall i, j :: 0 <= i < j < 4 ==> order[i] != order[j]
  }

  lemma {:induction false} ShuffleKeeps(order: seq<nat>, r: Derived, i: nat)
    requires IsOrder(order) && i < 4
    ensures IsOrder(Shuffled(order, r, i))
    decreases i
  {
    if i > 0 {
      ShuffleKeeps(Swapped(order, i, r[i] % (i + 1)), r, i - 1);
    }
  }

  // ---- headers ----

  function Base(quarter: nat): nat
  {
    if quarter == 0 then 0x1_0000 else quarter * QUARTER
  }

  function Width(r: Derived, i: nat): nat
    requires i < 4
  {
    0x10_0000 + AddrAt(r, 4 + 4 * i) % 0x100_0000
  }

  /** As 64-bit numbers are subtracted. */
  function Span(base: nat, width: nat): nat
  {
    Uint64(QUARTER - base % QUARTER - width - 1)
  }

  lemma BaseIn(quarter: nat)
    requires quarter < 4
    ensures Base(quarter) == quarter * QUARTER + Base(quarter) % QUARTER
    ensures Base(quarter) % QUARTER == if quarter == 0 then 0x1_0000 else 0
  {
    if quarter == 1 {
    } else if quarter == 2 {
    } else if quarter == 3 {
    }
  }

  /** The modulus is positive: the code's own division never fails. */
  lemma SpanIsPositive(r: Derived, quarter: nat, i: nat)
    requires quarter < 4 && i < 4
    ensures var base, width := Base(quarter), Width(r, i);
      Span(base, width) == QUARTER - base % QUARTER - width - 1 > 0
  {
    BaseIn(quarter);
    var width := Width(r, i);
    assert 0x10_0000 <= width < 0x10_0000 + 0x100_0000;
  }

  function Header(r: Derived, quarter: nat, i: nat): Range
    requires quarter < 4 && i < 4
  {
    SpanIsPositive(r, quarter, i);
    var base, width := Base(quarter), Width(r, i);
    var lo := Uint64(base + AddrAt(r, 20 + 4 * i) % Span(base, width));
    Range(Uint32(lo), Uint32(lo + width))
  }

  lemma Offset(x: nat, span: nat) returns (y: nat)
    requires span > 0
    ensures y == x % span < span
  {
    y := x % span;
  }

  lemma NoWrap(lo: nat, hi: nat)
    requires lo <= hi < SPACE
    ensures Uint64(lo) == lo == Uint32(lo) && Uint32(hi) == hi
  {
  }

  /** A header range lies in its quarter, holds more than a million values, and
      none of plain WireGuard's. */
  lemma HeaderInQuarter(r: Derived, quarter: nat, i: nat)
    requires quarter < 4 && i < 4
    ensures var h := Header(r, quarter, i);
      quarter * QUARTER <= h.lo && h.lo + 0x10_0000 <= h.hi < (quarter + 1) * QUARTER && 4 < h.lo
  {
    SpanIsPositive(r, quarter, i);
    BaseIn(quarter);
    var base, width := Base(quarter), Width(r, i);
    var y := Offset(AddrAt(r, 20 + 4 * i), Span(base, width));
    NoWrap(base + y, base + y + width);
  }

  // ---- paddings ----

  function Padding(b: byte): nat
  {
    16 + Uint16(b) % 128
  }

  function Paddings(r: Derived): seq<nat>
  {
    var s1, s2 := Padding(r[36]), Padding(r[37]);
    [s1, if Uint16(s1 + 148) == Uint16(s2 + 92) then Uint16(s2 + 1) else s2, Padding(r[38]),
     MIN_PADDING + Uint16(r[39]) % (MAX_TRANSPORT_PADDING - MIN_PADDING + 1)]
  }

  function ProfileOf(r: Derived): Profile
  {
    ShuffleKeeps(IN_ORDER, r, 3);
    Profile(Headers(r, Order(r)), Paddings(r))
  }

  function Headers(r: Derived, order: seq<nat>): seq<Range>
    requires |order| == 4 && forall i :: 0 <= i < 4 ==> order[i] < 4
  {
    seq(4, i requires 0 <= i < 4 => Header(r, order[i], i))
  }

  /** The shuffle in place. */
  method Shuffle(order: array<nat>, r: Derived)
    requires order[..] == IN_ORDER
    modifies order
    ensures order[..] == Order(r)
  {
    var i := 3;
    while i > 0
      invariant 0 <= i < 4 && order.Length == 4 && Shuffled(order[..], r, i) == Order(r)
    {
      SwapStep(order, r, i);
      i := i - 1;
    }
  }

  method SwapStep(order: array<nat>, r: Derived, i: nat)
    requires order.Length == 4 && 0 < i < 4
    modifies order
    ensures Shuffled(order[..], r, i - 1) == Shuffled(old(order[..]), r, i)
  {
    var j := r[i] % (i + 1);
    order[i], order[j] := order[j], order[i];
    assert order[..] == Swapped(old(order[..]), i, j);
  }

  /** Derive, but for the keys. */
  method Derive(r: Derived) returns (p: Profile)
    ensures p == ProfileOf(r)
  {
    var order := new nat[4](i => i);
    assert order[..] == IN_ORDER;
    Shuffle(order, r);
    ShuffleKeeps(IN_ORDER, r, 3);
    var headers := DeriveHeaders(r, order);
    var paddings := DerivePaddings(r);
    p := Profile(headers, paddings);
  }

  method DeriveHeaders(r: Derived, order: array<nat>) returns (hs: seq<Range>)
    requires order.Length == 4 && forall i :: 0 <= i < 4 ==> order[i] < 4
    ensures hs == Headers(r, order[..])
  {
    var headers := new Range[4](_ => Range(0, 0));
    for i := 0 to 4
      invariant forall k :: 0 <= k < i ==> headers[k] == Header(r, order[k], k)
    {
      headers[i] := DeriveHeader(r, order[i], i);
    }
    hs := headers[..];
  }

  /** The body of the loop over the headers. */
  method DeriveHeader(r: Derived, quarter: nat, i: nat) returns (h: Range)
    requires quarter < 4 && i < 4
    ensures h == Header(r, quarter, i)
  {
    var base := quarter * QUARTER;
    if base == 0 {
      base := 0x1_0000;
    }
    var width := 0x10_0000 + AddrAt(r, 4 + 4 * i) % 0x100_0000;
    SpanIsPositive(r, quarter, i);
    var span := Span(base, width);
    var lo := Uint64(base + AddrAt(r, 20 + 4 * i) % span);
    h := Range(Uint32(lo), Uint32(lo + width));
  }

  method DerivePaddings(r: Derived) returns (s: seq<nat>)
    ensures s == Paddings(r)
  {
    var paddings := new nat[4](_ => 0);
    for i := 0 to 3
      invariant forall k :: 0 <= k < i ==> paddings[k] == Padding(r[36 + k])
    {
      paddings[i] := Padding(r[36 + i]);
    }
    if Uint16(paddings[0] + 148) == Uint16(paddings[1] + 92) {
      paddings[1] := Uint16(paddings[1] + 1);
    }
    paddings[3] := MIN_PADDING + Uint16(r[39]) % (MAX_TRANSPORT_PADDING - MIN_PADDING + 1);
    s := paddings[..];
  }

  // ---- what holds of every secret ----

  predicate Apart(a: Range, b: Range)
  {
    a.hi < b.lo || b.hi < a.lo
  }

  lemma QuartersApart(a: Range, b: Range, p: nat, q: nat)
    requires p != q
    requires p * QUARTER <= a.lo <= a.hi < (p + 1) * QUARTER && q * QUARTER <= b.lo <= b.hi < (q + 1) * QUARTER
    ensures Apart(a, b)
  {
  }

  predicate InQuarter(h: Range, q: nat)
  {
    q * QUARTER <= h.lo <= h.hi < (q + 1) * QUARTER
  }

  lemma HeaderAt(r: Derived, i: nat)
    requires i < 4
    ensures var q, h := Order(r)[i], ProfileOf(r).headers[i];
      q < 4 && InQuarter(h, q) && 4 < h.lo && h.lo + 0x10_0000 <= h.hi < SPACE
  {
    ShuffleKeeps(IN_ORDER, r, 3);
    HeaderInQuarter(r, Order(r)[i], i);
    assert ProfileOf(r).headers[i] == Header(r, Order(r)[i], i);
  }

  /** The four header ranges are disjoint, hold more than a million 32-bit numbers
      each, and none up to 4. */
  lemma HeadersAreDisjoint(r: Derived, i: nat, j: nat)
    requires i < 4 && j < 4
    ensures var hs := ProfileOf(r).headers;
      4 < hs[i].lo && hs[i].lo + 0x10_0000 <= hs[i].hi < SPACE && (i != j ==> Apart(hs[i], hs[j]))
  {
    HeaderAt(r, i);
    HeaderAt(r, j);
    ShuffleKeeps(IN_ORDER, r, 3);
    if i != j {
      QuartersApart(ProfileOf(r).headers[i], ProfileOf(r).headers[j], Order(r)[i], Order(r)[j]);
    }
  }

  /** There is one of them in each quarter. */
  lemma OneInEachQuarter(r: Derived, q: nat)
    requires q < 4
    ensures exists i :: 0 <= i < 4 && InQuarter(ProfileOf(r).headers[i], q)
  {
    ShuffleKeeps(IN_ORDER, r, 3);
    var order := Order(r);
    assert order[0] == q || order[1] == q || order[2] == q || order[3] == q;
    var i :| 0 <= i < 4 && order[i] == q;
    HeaderAt(r, i);
  }

  /** The paddings' bounds; init and response packets never have one size. */
  lemma PaddingsAreBounded(r: Derived)
    ensures var s := ProfileOf(r).paddings;
      |s| == 4 && 16 <= s[0] <= 143 && 16 <= s[1] <= 144 && 16 <= s[2] <= 143
      && MIN_PADDING <= s[3] <= MAX_TRANSPORT_PADDING
      && s[0] + 148 != s[1] + 92
  {
    PaddingIs(r[36]);
    PaddingIs(r[37]);
    PaddingIs(r[38]);
    Bumped(Padding(r[36]), Padding(r[37]));
    assert ProfileOf(r).paddings == Paddings(r);
  }

  lemma PaddingIs(b: byte)
    ensures Padding(b) == 16 + b % 128 <= 143
  {
  }

  lemma Bumped(s1: nat, s2: nat)
    requires s1 <= 143 && s2 <= 143
    ensures Uint16(s1 + 148) == s1 + 148 && Uint16(s2 + 92) == s2 + 92 && Uint16(s2 + 1) == s2 + 1
  {
  }

  /** The bound of 143 bytes that the code's comment gives for S2 is met exactly
      if no collision of the two sizes pushes 143 one up. */
  lemma SecondPaddingBound(r: Derived)
    ensures ProfileOf(r).paddings[1] <= 143 <==> !(r[36] % 128 == 71 && r[37] % 128 == 127)
  {
    PaddingIs(r[36]);
    PaddingIs(r[37]);
    Bumped(Padding(r[36]), Padding(r[37]));
    assert ProfileOf(r).paddings == Paddings(r);
  }
}
