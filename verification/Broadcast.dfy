/** internal/tunwrap/broadcast.go: which packets are LAN broadcasts, how one is
    wrapped into a unicast to a member, and what a member accepts back. */
module Broadcast {
  import opened Ipv4

  const PORT := 4797
  const IP_HEADER := 20
  const WRAP_HEADER := 32  // IPv4, UDP and the magic
  const MAGIC: Bytes := [0x7a, 0x70, 0x74, 0x62]  // "zptb"
  const MDNS: Addr := 0xe000_00fb
  const MDNS_PORT := 5353

  datatype Mode = On | Off | Mdns

  /** What a device knows of its room. */
  datatype Member = Member(self: Addr, subnet: Prefix, mode: Mode) {
    predicate IsGroup(dst: Addr)
    {
      dst == LIMITED || dst == subnet.Last() || MULTICAST.Contains(dst)
    }

    predicate ShouldForward(pkt: Bytes)
    {
      |pkt| >= IP_HEADER && pkt[0] / 16 == 4
      && AddrAt(pkt, 12) == self && IsGroup(AddrAt(pkt, 16)) && pkt[9] != IGMP
      && match mode
         case Off => false
         case On => true
         case Mdns =>
           var ihl := pkt[0] % 16 * 4;
           AddrAt(pkt, 16) == MDNS && pkt[9] == UDP && |pkt| >= ihl + 8 && Word(pkt, ihl + 2) == MDNS_PORT
    }
  }

  // ---- the Internet checksum ----

  /** The sum of the 16-bit words, an odd last byte being the high half. */
  function WordSum(b: Bytes): nat
  {
    if b == [] then 0
    else if |b| == 1 then (b[0] as int) * 256
    else Word(b, 0) + WordSum(b[2..])
  }

  /** One's complement addition: a carry out of bit 15 comes back into bit 0. */
  function OnesAdd(a: nat, b: nat): nat
  {
    if a + b >= 0x1_0000 then a + b - 0xffff else a + b
  }

  /** The checksum as RFC 1071 defines it: one's complement additions. */
  function OnesSum(b: Bytes): (s: nat)
    ensures s < 0x1_0000
  {
    if b == [] then 0
    else if |b| == 1 then (b[0] as int) * 256
    else OnesAdd(Word(b, 0), OnesSum(b[2..]))
  }

  /** Adding the carries of an ordinary sum back in at the end. */
  function Carried(n: nat): nat
  {
    if n == 0 then 0 else (n - 1) % 0xffff + 1
  }

  lemma CarriedAdds(a: nat, n: nat)
    requires a < 0x1_0000
    ensures Carried(a + n) == OnesAdd(a, Carried(n))
  {
    if n > 0 {
      assert (n - 1) == (n - 1) / 0xffff * 0xffff + (n - 1) % 0xffff;
      var r := a + Carried(n) - 1;
      assert a + n - 1 == (n - 1) / 0xffff * 0xffff + r;
      assert (a + n - 1) % 0xffff == r % 0xffff;
    }
  }

  lemma {:induction false} SumsAgree(b: Bytes)
    ensures Carried(WordSum(b)) == OnesSum(b)
  {
    if |b| >= 2 {
      SumsAgree(b[2..]);
      CarriedAdds(Word(b, 0), WordSum(b[2..]));
    }
  }

  /** The sum of the words before i; in 32 bits it does not wrap for any packet. */
  ghost predicate SumTo(b: Bytes, i: nat, s: nat)
    requires i <= |b|
  {
    |b| <= 0x2_0000 ==> s + WordSum(b[i..]) == WordSum(b) && s <= i / 2 * 0xffff
  }

  lemma NextWord(b: Bytes, i: nat, s: nat)
    requires i % 2 == 0 && i + 1 < |b| && SumTo(b, i, s)
    ensures SumTo(b, i + 2, (s + Word(b, i)) % SPACE)
  {
    assert b[i..][2..] == b[i + 2..];
  }

  lemma LastByte(b: Bytes, i: nat, s: nat)
    requires i % 2 == 0 && i + 1 == |b| && SumTo(b, i, s)
    ensures |b| <= 0x2_0000 ==> (s + (b[i] as int) * 256) % SPACE == WordSum(b)
  {
    assert b[i..] == [b[i]];
  }

  /** The accumulating loop, in a 32-bit register, then the carries. */
  method Checksum(b: Bytes) returns (c: nat)
    ensures c < 0x1_0000
    ensures |b| <= 0x2_0000 ==> c == 0xffff - OnesSum(b)
  {
    var s: nat, i := 0, 0;
    while i + 1 < |b|
      invariant 0 <= i <= |b| && i % 2 == 0 && s < SPACE && SumTo(b, i, s)
      decreases |b| - i
    {
      NextWord(b, i, s);
      s := (s + Word(b, i)) % SPACE;
      i := i + 2;
    }
    if |b| % 2 == 1 {
      LastByte(b, i, s);
      s := (s + (b[|b| - 1] as int) * 256) % SPACE;
    }
    assert |b| <= 0x2_0000 ==> s == WordSum(b);
    while s / 0x1_0000 != 0
      invariant |b| <= 0x2_0000 ==> Carried(s) == Carried(WordSum(b))
      decreases s
    {
      FoldOnce(s);
      s := s % 0x1_0000 + s / 0x1_0000;
    }
    SumsAgree(b);
    c := 0xffff - s;
  }

  lemma FoldOnce(s: nat)
    requires s >= 0x1_0000
    ensures s % 0x1_0000 + s / 0x1_0000 < s && Carried(s % 0x1_0000 + s / 0x1_0000) == Carried(s)
  {
    var h, t := s / 0x1_0000, s % 0x1_0000 + s / 0x1_0000;
    assert s == t + h * 0xffff && t > 0;
    assert (s - 1) % 0xffff == (t - 1) % 0xffff;
  }

  lemma {:induction false} SumWithWord(b: Bytes, i: nat, w: nat)
    requires i % 2 == 0 && i + 2 <= |b| && b[i] == 0 && b[i + 1] == 0 && w < 0x1_0000
    ensures WordSum(b[..i] + WordBytes(w) + b[i + 2..]) == WordSum(b) + w
  {
    var c := b[..i] + WordBytes(w) + b[i + 2..];
    if i == 0 {
      assert c[2..] == b[2..];
    } else {
      SumWithWord(b[2..], i - 2, w);
      assert c[2..] == b[2..][..i - 2] + WordBytes(w) + b[2..][i..];
    }
  }

  /** A header carrying the checksum computed over its zeroed field sums to
      all ones, which is what a receiver checks (RFC 791, section 3.1). */
  lemma ChecksumVerifies(h: Bytes, i: nat)
    requires i % 2 == 0 && i + 2 <= |h| && h[i] == 0 && h[i + 1] == 0 && WordSum(h) > 0
    ensures OnesSum(h[..i] + WordBytes(0xffff - OnesSum(h)) + h[i + 2..]) == 0xffff
  {
    var w := 0xffff - OnesSum(h);
    SumsAgree(h);
    var full := h[..i] + WordBytes(w) + h[i + 2..];
    SumWithWord(h, i, w);
    SumsAgree(full);
    AllOnes(WordSum(h));
    assert OnesSum(full) == Carried(WordSum(h) + w);
  }

  lemma AllOnes(s: nat)
    requires s > 0
    ensures Carried(s) <= 0xffff && Carried(s + (0xffff - Carried(s))) == 0xffff
  {
    var w := 0xffff - Carried(s);
    assert s == (s - 1) / 0xffff * 0xffff + Carried(s);
    assert s + w - 1 == (s - 1) / 0xffff * 0xffff + 0xfffe;
    assert (s + w - 1) % 0xffff == 0xfffe;
  }

  // ---- wrapping ----

  /** The IPv4 header of a wrapped packet before its checksum is filled in. */
  function RawHeader(total: nat, src: Addr, dst: Addr): (h: Bytes)
    ensures |h| == IP_HEADER
  {
    [0x45, 0] + WordBytes(total) + [0, 0, 0x40, 0, 64, UDP, 0, 0] + AddrBytes(src) + AddrBytes(dst)
  }

  function Header(total: nat, src: Addr, dst: Addr): (h: Bytes)
    ensures |h| == IP_HEADER
  {
    var raw := RawHeader(total, src, dst);
    raw[..10] + WordBytes(0xffff - OnesSum(raw)) + raw[12..]
  }

  function Wrapped(orig: Bytes, src: Addr, dst: Addr): (p: Bytes)
    ensures |p| == WRAP_HEADER + |orig|
  {
    Header(WRAP_HEADER + |orig|, src, dst)
    + WordBytes(PORT) + WordBytes(PORT) + WordBytes(12 + |orig|) + [0, 0] + MAGIC + orig
  }

  method PutWord(p: array<byte>, i: nat, w: nat)
    requires i + 2 <= p.Length
    modifies p
    ensures p[i] == w / 256 % 256 && p[i + 1] == w % 256
    ensures forall j :: 0 <= j < p.Length && j != i && j != i + 1 ==> p[j] == old(p[j])
  {
    p[i], p[i + 1] := w / 256 % 256, w % 256;
  }

  method Copy(p: array<byte>, i: nat, b: Bytes)
    requires i + |b| <= p.Length
    modifies p
    ensures p[..] == old(p[..i]) + b + old(p[i + |b|..])
  {
    for j := 0 to |b|
      invariant p[..] == old(p[..i]) + b[..j] + old(p[i + j..])
    {
      p[i + j] := b[j];
    }
    assert b[..|b|] == b;
  }

  /** The header fields, the checksum still zero. */
  method PutHeader(p: array<byte>, total: nat, src: Addr, dst: Addr)
    requires p.Length >= IP_HEADER && forall i :: 0 <= i < IP_HEADER ==> p[i] == 0
    modifies p
    ensures p[..] == RawHeader(total, src, dst) + old(p[IP_HEADER..])
  {
    p[0] := 0x45;
    PutWord(p, 2, total);
    PutWord(p, 6, 0x4000);
    p[8], p[9] := 64, UDP;
    ghost var was, fields := p[..], [0x45, 0] + WordBytes(total) + [0, 0, 0x40, 0, 64, UDP, 0, 0];
    assert was[..12] == fields;
    Copy(p, 12, AddrBytes(src));
    Copy(p, 16, AddrBytes(dst));
    TwoCopies(was, AddrBytes(src), AddrBytes(dst));
    assert was[IP_HEADER..] == old(p[IP_HEADER..]);
  }

  /** Two addresses written one behind the other. */
  lemma TwoCopies(p: Bytes, src: Bytes, dst: Bytes)
    requires |p| >= IP_HEADER && |src| == |dst| == 4
    ensures var q := p[..12] + src + p[16..]; q[..16] + dst + q[20..] == p[..12] + src + dst + p[IP_HEADER..]
  {
    var q := p[..12] + src + p[16..];
    assert q[..16] == p[..12] + src && q[20..] == p[20..];
  }

  /** The UDP header behind the IPv4 header h, the checksum zero: none. */
  method PutUdp(p: array<byte>, size: nat, ghost h: Bytes)
    requires p.Length >= 28 && |h| == IP_HEADER && p[..IP_HEADER] == h && p[26] == 0 && p[27] == 0
    modifies p
    ensures p[..28] == h + WordBytes(PORT) + WordBytes(PORT) + WordBytes(size) + [0, 0]
  {
    PutWord(p, 20, PORT);
    PutWord(p, 22, PORT);
    PutWord(p, 24, size);
    assert p[..IP_HEADER] == h;
  }

  method Wrap(m: Member, orig: Bytes, peer: Addr) returns (p: array<byte>)
    ensures fresh(p) && p[..] == Wrapped(orig, m.self, peer)
  {
    var total := WRAP_HEADER + |orig|;
    p := new byte[total](_ => 0);
    PutHeader(p, total, m.self, peer);
    ghost var raw, h := RawHeader(total, m.self, peer), Header(total, m.self, peer);
    assert p[..IP_HEADER] == raw;
    var c := Checksum(p[..IP_HEADER]);
    PutWord(p, 10, c);
    assert p[..IP_HEADER] == h;
    PutUdp(p, 12 + |orig|, h);
    Copy(p, 28, MAGIC);
    Copy(p, 32, orig);
    assert p[..] == p[..28] + MAGIC + orig;
  }

  /** None: not a wrapped broadcast; Dropped: one this member must not take. */
  datatype Unwrapping = NotWrapped | Dropped | Inner(pkt: Bytes)

  function Unwrap(m: Member, pkt: Bytes): Unwrapping
  {
    if |pkt| < WRAP_HEADER || pkt[0] != 0x45 || pkt[9] != UDP then NotWrapped
    else if AddrAt(pkt, 16) != m.self || Word(pkt, 22) != PORT || pkt[28..32] != MAGIC then NotWrapped
    else
      var src, inner := AddrAt(pkt, 12), pkt[WRAP_HEADER..];
      if |inner| < IP_HEADER || inner[0] / 16 != 4 || m.mode == Off then Dropped
      else if AddrAt(inner, 12) != src || !m.subnet.Contains(src) then Dropped
      else if !m.IsGroup(AddrAt(inner, 16)) then Dropped
      else if Word(inner, 2) != |inner| then Dropped
      else Inner(inner)
  }

  lemma WrappedFields(orig: Bytes, src: Addr, dst: Addr)
    ensures var p := Wrapped(orig, src, dst);
            && p[0] == 0x45 && p[9] == UDP && AddrAt(p, 12) == src && AddrAt(p, 16) == dst
            && Word(p, 2) == |p| % 0x1_0000 && Word(p, 22) == PORT && p[28..32] == MAGIC && p[WRAP_HEADER..] == orig
  {
    var p, total := Wrapped(orig, src, dst), WRAP_HEADER + |orig|;
    var h := Header(total, src, dst);
    HeaderFields(total, src, dst);
    assert p[..IP_HEADER] == h;
    assert p[12..16] == h[12..16] && p[16..20] == h[16..20] && p[2..4] == h[2..4];
    assert p[22..24] == WordBytes(PORT);
  }

  lemma HeaderFields(total: nat, src: Addr, dst: Addr)
    ensures var h := Header(total, src, dst);
            h[0] == 0x45 && h[9] == UDP && h[2..4] == WordBytes(total)
            && h[12..16] == AddrBytes(src) && h[16..20] == AddrBytes(dst)
  {
    var raw, h := RawHeader(total, src, dst), Header(total, src, dst);
    assert h[12..16] == raw[12..16] == AddrBytes(src);
    assert h[16..20] == raw[16..20] == AddrBytes(dst);
    assert forall i :: 0 <= i < 10 ==> h[i] == raw[i];
    assert raw[2..4] == WordBytes(total);
  }

  /** The packet wrap builds has a header that verifies. */
  lemma WrappedHeaderVerifies(orig: Bytes, src: Addr, dst: Addr)
    ensures OnesSum(Wrapped(orig, src, dst)[..IP_HEADER]) == 0xffff
  {
    var raw := RawHeader(WRAP_HEADER + |orig|, src, dst);
    assert WordSum(raw) >= Word(raw, 0) == 0x4500;
    ChecksumVerifies(raw, 10);
    assert Wrapped(orig, src, dst)[..IP_HEADER] == Header(WRAP_HEADER + |orig|, src, dst);
  }

  /** A broadcast the sender forwards comes out of the addressed member as it
      went in, exactly when that member shares broadcasts at all, takes the
      packet's destination for a group and its source for one of its subnet, and
      the packet's own length field is right. */
  lemma WrapRoundTrip(sender: Member, receiver: Member, pkt: Bytes)
    requires sender.ShouldForward(pkt)
    ensures Unwrap(receiver, Wrapped(pkt, sender.self, receiver.self)) == Inner(pkt)
            <==> receiver.mode != Off && receiver.subnet.Contains(sender.self) && Word(pkt, 2) == |pkt|
                 && receiver.IsGroup(AddrAt(pkt, 16))
  {
    WrappedFields(pkt, sender.self, receiver.self);
  }

  /** Nobody injects in another's name: what is taken is a broadcast, with the
      source of the outer packet, which the tunnel has authenticated. */
  lemma UnwrapAuthentic(m: Member, pkt: Bytes)
    requires Unwrap(m, pkt).Inner?
    ensures var inner := Unwrap(m, pkt).pkt;
            && pkt == pkt[..WRAP_HEADER] + inner && |inner| >= IP_HEADER && Word(inner, 2) == |inner|
            && AddrAt(inner, 12) == AddrAt(pkt, 12) && m.subnet.Contains(AddrAt(inner, 12))
            && m.IsGroup(AddrAt(inner, 16)) && AddrAt(pkt, 16) == m.self
  {
    assert pkt == pkt[..WRAP_HEADER] + pkt[WRAP_HEADER..];
  }

  /** Another member reads a wrapped packet as not for it. */
  lemma WrapIsForOneMember(sender: Member, other: Member, pkt: Bytes, peer: Addr)
    requires other.self != peer
    ensures Unwrap(other, Wrapped(pkt, sender.self, peer)) == NotWrapped
  {
    WrappedFields(pkt, sender.self, peer);
  }
}
