/** internal/stun/stun.go: Binding responses of STUN (RFC 5389). */
module Stun {
  import opened Common

  /** Bytes as bit vectors, for the exclusive or. */
  type Octets = seq<bv8>

  const HEADER := 20
  const RESPONSE := 0x0101
  const MAPPED := 0x0001
  const XOR_MAPPED := 0x0020

  /** The magic cookie, section 6 of RFC 5389. */
  const COOKIE: Octets := [0x21, 0x12, 0xA4, 0x42]

  type TxID = id: Octets | |id| == 12 witness [0, 0, 0, 0, 0, 0, 0, 0, 0, 0, 0, 0]

  type Octets4 = b: Octets | |b| == 4 witness [0, 0, 0, 0]
  type Octets16 = b: Octets | |b| == 16 witness [0, 0, 0, 0, 0, 0, 0, 0, 0, 0, 0, 0, 0, 0, 0, 0]

  /** zone "": none. */
  datatype IP = V4(b4: Octets4) | V6(b6: Octets16, zone: string)

  /** A port by its two bytes. */
  datatype Port = Port(hi: bv8, lo: bv8)

  datatype AddrPort = AddrPort(ip: IP, port: Port)

  /** The prefix of an IPv4 address written as an IPv6 one. */
  const MAPPED_PREFIX: Octets := [0, 0, 0, 0, 0, 0, 0, 0, 0, 0, 0xFF, 0xFF]

  function Unmap(ip: IP): IP
  {
    if ip.V6? && ip.b6[..12] == MAPPED_PREFIX then V4(ip.b6[12..]) else ip
  }

  /** An address as bytes can say it: without its zone. */
  function Zoneless(ip: IP): IP
  {
    if ip.V6? then V6(ip.b6, "") else ip
  }

  function AsBytes(ip: IP): (b: Octets)
    ensures |b| == if ip.V6? then 16 else 4
  {
    if ip.V6? then ip.b6 else ip.b4
  }

  function Pair(b: Octets, i: nat): nat
    requires i + 2 <= |b|
  {
    b[i] as int * 256 + b[i + 1] as int
  }

  predicate Is(b: Octets)
  {
    |b| >= HEADER && b[0] & 0xC0 == 0 && b[4..8] == COOKIE && Pair(b, 2) + HEADER <= |b|
  }

  // ---- the exclusive or of section 15.2 ----

  function Key(id: TxID): (k: Octets)
    ensures |k| == 16
  {
    COOKIE + id
  }

  function Xored(ip: Octets, id: TxID): (r: Octets)
    requires |ip| <= 16
    ensures |r| == |ip|
  {
    seq(|ip|, i requires 0 <= i < |ip| => ip[i] ^ Key(id)[i])
  }

  function XoredPort(p: Port): Port
  {
    Port(p.hi ^ 0x21, p.lo ^ 0x12)
  }

  lemma XorTwice(a: bv8, b: bv8)
    ensures (a ^ b) ^ b == a
  {
  }

  lemma XoredTwice(ip: Octets, id: TxID)
    requires |ip| <= 16
    ensures Xored(Xored(ip, id), id) == ip
  {
    forall i | 0 <= i < |ip| ensures Xored(Xored(ip, id), id)[i] == ip[i] {
      XorTwice(ip[i], Key(id)[i]);
    }
  }

  /** xorIP; dst and src may be one array. */
  method XorIP(dst: array<bv8>, off: nat, src: array<bv8>, id: TxID)
    requires src.Length <= 16 && off + src.Length <= dst.Length
    requires dst == src ==> off == 0
    modifies dst
    ensures dst[..] == old(dst[..off]) + Xored(old(src[..]), id) + old(dst[off + src.Length..])
  {
    var key := Key(id);
    for i := 0 to src.Length
      invariant forall k :: 0 <= k < i ==> dst[off + k] == old(src[k]) ^ key[k]
      invariant forall k :: i <= k < src.Length ==> src[k] == old(src[k])
      invariant forall k :: 0 <= k < off || off + i <= k < dst.Length ==> dst[k] == old(dst[k])
    {
      dst[off + i] := src[i] ^ key[i];
    }
    var n := src.Length;
    forall k | 0 <= k < dst.Length
      ensures dst[k] == (old(dst[..off]) + Xored(old(src[..]), id) + old(dst[off + n..]))[k]
    {
      if off <= k < off + n {
        assert dst[off + (k - off)] == old(src[k - off]) ^ key[k - off];
      }
    }
  }

  // ---- Response ----

  function Header(typ: Octets, len: bv8, id: TxID): (b: Octets)
    requires |typ| == 2
    ensures |b| == HEADER
  {
    typ + [0, len] + COOKIE + id
  }

  function FamilyOf(ip: IP): bv8
  {
    if ip.V6? then 2 else 1
  }

  /** A response whose one attribute is XOR-MAPPED-ADDRESS. */
  function ResponseBytes(id: TxID, addr: AddrPort): Octets
  {
    var ip, port := Unmap(addr.ip), XoredPort(addr.port);
    var len: bv8 := if ip.V6? then 20 else 8;
    Header([1, 1], 4 + len, id)
    + ([0, 0x20, 0, len] + [0, FamilyOf(ip), port.hi, port.lo] + Xored(AsBytes(ip), id))
  }

  method NewArray(b: Octets) returns (a: array<bv8>)
    ensures fresh(a) && a[..] == b
  {
    a := new bv8[|b|](i requires 0 <= i < |b| => b[i]);
  }

  /** The attribute but for its address. */
  method AttrFields(len: bv8, family: bv8, port: Port) returns (attr: array<bv8>)
    ensures fresh(attr) && attr.Length == 24
    ensures attr[..8] == [0, 0x20, 0, len] + [0, family, XoredPort(port).hi, XoredPort(port).lo]
  {
    attr := new bv8[24](_ => 0);
    attr[1] := 0x20;
    attr[3] := len;
    attr[5] := family;
    attr[6] := port.hi ^ 0x21;
    attr[7] := port.lo ^ 0x12;
  }

  method Response(id: TxID, addr: AddrPort) returns (b: Octets)
    ensures b == ResponseBytes(id, addr)
  {
    var ip := Unmap(addr.ip);
    var ipLen, family, len: bv8 := 4, 1, 8;
    if ip.V6? {
      ipLen, family, len := 16, 2, 20;
    }
    var attr := AttrFields(len, family, addr.port);
    ghost var head := attr[..8];
    var src := NewArray(AsBytes(ip));
    assert |AsBytes(ip)| == src.Length == ipLen;
    XorIP(attr, 8, src, id);
    TakeSum(head, Xored(AsBytes(ip), id), attr[..]);
    b := Header([1, 1], 4 + len, id) + attr[..8 + ipLen];
  }

  lemma TakeSum(a: Octets, b: Octets, s: Octets)
    requires a + b <= s
    ensures s[..|a| + |b|] == a + b
  {
  }

  // ---- ParseResponse ----

  /** netip.AddrFromSlice and Unmap. */
  function Address(b: Octets): IP
    requires |b| == 4 || |b| == 16
  {
    Unmap(if |b| == 4 then V4(b) else V6(b, ""))
  }

  /** The size of an address of this family, 0: there is no such family. */
  function SizeOf(family: bv8): nat
  {
    if family == 1 then 4 else if family == 2 then 16 else 0
  }

  /** parseAddr. */
  function AddrIn(v: Octets, id: TxID, xored: bool): Option<AddrPort>
  {
    if |v| < 4 then None
    else
      var n := SizeOf(v[1]);
      if n == 0 || |v| < 4 + n then None
      else
        var ip := if xored then Xored(v[4..4 + n], id) else v[4..4 + n];
        var port := if xored then XoredPort(Port(v[2], v[3])) else Port(v[2], v[3]);
        Some(AddrPort(Address(ip), port))
  }

  method ParseAddr(v: Octets, id: TxID, xored: bool) returns (r: Option<AddrPort>)
    ensures r == AddrIn(v, id, xored)
  {
    if |v| < 4 {
      return None;
    }
    var n := SizeOf(v[1]);
    if n == 0 || |v| < 4 + n {
      return None;
    }
    var port, ip := Port(v[2], v[3]), v[4..4 + n];
    if xored {
      port := XoredPort(port);
      ip := XorInPlace(ip, id);
    }
    return Some(AddrPort(Address(ip), port));
  }

  /** The call of xorIP in parseAddr, on one array for both arguments. */
  method XorInPlace(b: Octets, id: TxID) returns (r: Octets)
    requires |b| <= 16
    ensures r == Xored(b, id)
  {
    var ip := NewArray(b);
    XorIP(ip, 0, ip, id);
    r := ip[..];
  }

  datatype Attr = Attr(typ: nat, value: Octets)

  /** Where the attribute after one of n bytes starts: they are padded to 4. */
  function NextAt(n: nat): (next: nat)
    ensures next >= 4 + n && next % 4 == 0 && next < 4 + n + 4
  {
    4 + (n + 3) / 4 * 4
  }

  /** The attributes of a body, as far as they are whole; the last one may lack
      its padding. */
  function Attrs(body: Octets): seq<Attr>
  {
    if |body| < 4 || 4 + Pair(body, 2) > |body| then []
    else
      var n := Pair(body, 2);
      [Attr(Pair(body, 0), body[4..4 + n])] + if NextAt(n) > |body| then [] else Attrs(body[NextAt(n)..])
  }

  function XorAddr(a: Attr, id: TxID): Option<AddrPort>
  {
    if a.typ == XOR_MAPPED then AddrIn(a.value, id, true) else None
  }

  function MappedAddr(a: Attr, id: TxID): Option<AddrPort>
  {
    if a.typ == MAPPED then AddrIn(a.value, id, false) else None
  }

  /** The address a walk over the attributes ends with, mapped being the last
      MAPPED-ADDRESS before them. */
  function Walk(attrs: seq<Attr>, id: TxID, mapped: Option<AddrPort>): Option<AddrPort>
  {
    if attrs == [] then mapped
    else if XorAddr(attrs[0], id).Some? then XorAddr(attrs[0], id)
    else Walk(attrs[1..], id, if MappedAddr(attrs[0], id).Some? then MappedAddr(attrs[0], id) else mapped)
  }

  predicate IsFirstXor(attrs: seq<Attr>, id: TxID, i: nat)
    requires i < |attrs|
  {
    XorAddr(attrs[i], id).Some? && forall j :: 0 <= j < i ==> XorAddr(attrs[j], id).None?
  }

  predicate IsLastMapped(attrs: seq<Attr>, id: TxID, i: nat)
    requires i < |attrs|
  {
    MappedAddr(attrs[i], id).Some? && forall j :: i < j < |attrs| ==> MappedAddr(attrs[j], id).None?
  }

  lemma {:induction false} FirstXorWins(attrs: seq<Attr>, id: TxID, mapped: Option<AddrPort>, i: nat)
    requires i < |attrs| && IsFirstXor(attrs, id, i)
    ensures Walk(attrs, id, mapped) == XorAddr(attrs[i], id)
  {
    if i > 0 {
      FirstXorWins(attrs[1..], id, if MappedAddr(attrs[0], id).Some? then MappedAddr(attrs[0], id) else mapped, i - 1);
    }
  }

  lemma {:induction false} NothingFound(attrs: seq<Attr>, id: TxID, mapped: Option<AddrPort>)
    requires forall j :: 0 <= j < |attrs| ==> XorAddr(attrs[j], id).None? && MappedAddr(attrs[j], id).None?
    ensures Walk(attrs, id, mapped) == mapped
  {
    if attrs != [] {
      NothingFound(attrs[1..], id, mapped);
    }
  }

  lemma {:induction false} LastMappedWins(attrs: seq<Attr>, id: TxID, mapped: Option<AddrPort>, i: nat)
    requires i < |attrs| && IsLastMapped(attrs, id, i)
    requires forall j :: 0 <= j < |attrs| ==> XorAddr(attrs[j], id).None?
    ensures Walk(attrs, id, mapped) == MappedAddr(attrs[i], id)
  {
    if i == 0 {
      NothingFound(attrs[1..], id, MappedAddr(attrs[0], id));
    } else {
      LastMappedWins(attrs[1..], id, if MappedAddr(attrs[0], id).Some? then MappedAddr(attrs[0], id) else mapped, i - 1);
    }
  }

  /** What a response says: its transaction and the mapped address. */
  datatype Parsed = Bad | Good(id: TxID, addr: AddrPort)

  /** The body of a message, as its header bounds it. */
  function Body(b: Octets): Octets
    requires Is(b)
  {
    b[HEADER..HEADER + Pair(b, 2)]
  }

  function ParsedResponse(b: Octets): Parsed
  {
    if !Is(b) || Pair(b, 0) != RESPONSE then Bad
    else
      match Walk(Attrs(Body(b)), b[8..20], None)
      case None => Bad
      case Some(addr) => Good(b[8..20], addr)
  }

  method ParseResponse(b: Octets) returns (r: Parsed)
    ensures r == ParsedResponse(b)
  {
    if !Is(b) || Pair(b, 0) != RESPONSE {
      return Bad;
    }
    var id: TxID := b[8..20];
    var body := b[HEADER..HEADER + Pair(b, 2)];
    var mapped: Option<AddrPort> := None;
    while |body| >= 4
      invariant Walk(Attrs(body), id, mapped) == Walk(Attrs(Body(b)), id, None)
      decreases |body|
    {
      var typ, n := Pair(body, 0), Pair(body, 2);
      if 4 + n > |body| {
        break;
      }
      var v := body[4..4 + n];
      ghost var attrs := Attrs(body);
      assert attrs[0] == Attr(typ, v);
      if typ == XOR_MAPPED {
        var a := ParseAddr(v, id, true);
        if a.Some? {
          return Good(id, a.value);
        }
      } else if typ == MAPPED {
        var a := ParseAddr(v, id, false);
        if a.Some? {
          mapped := a;
        }
      }
      var next := NextAt(n);
      if next > |body| {
        assert attrs[1..] == [];
        body := [];
        break;
      }
      assert attrs[1..] == Attrs(body[next..]);
      body := body[next..];
    }
    if mapped.Some? {
      return Good(id, mapped.value);
    }
    return Bad;
  }

  // ---- what the two are to each other ----

  /** The result is the first well-formed XOR-MAPPED-ADDRESS of the attributes
      walked over, else the last well-formed MAPPED-ADDRESS among them. */
  lemma ParseChooses(b: Octets, i: nat)
    requires Is(b) && Pair(b, 0) == RESPONSE && i < |Attrs(Body(b))|
    ensures var attrs, id := Attrs(Body(b)), b[8..20];
      (IsFirstXor(attrs, id, i) ==> ParsedResponse(b) == Good(id, XorAddr(attrs[i], id).value))
      && (IsLastMapped(attrs, id, i) && (forall j :: 0 <= j < |attrs| ==> XorAddr(attrs[j], id).None?)
          ==> ParsedResponse(b) == Good(id, MappedAddr(attrs[i], id).value))
  {
    var attrs, id := Attrs(Body(b)), b[8..20];
    if IsFirstXor(attrs, id, i) {
      FirstXorWins(attrs, id, None, i);
    }
    if IsLastMapped(attrs, id, i) && forall j :: 0 <= j < |attrs| ==> XorAddr(attrs[j], id).None? {
      LastMappedWins(attrs, id, None, i);
    }
  }

  /** With neither there is an error. */
  lemma ParseFails(b: Octets)
    requires Is(b) && forall j :: 0 <= j < |Attrs(Body(b))| ==>
      XorAddr(Attrs(Body(b))[j], b[8..20]).None? && MappedAddr(Attrs(Body(b))[j], b[8..20]).None?
    ensures ParsedResponse(b) == Bad
  {
    NothingFound(Attrs(Body(b)), b[8..20], None);
  }

  lemma ResponseHeader(typ: Octets, len: bv8, id: TxID, attr: Octets)
    requires typ == [1, 1] && |attr| == len as int
    ensures var b := Header(typ, len, id) + attr;
      Is(b) && Pair(b, 0) == RESPONSE && Body(b) == attr && b[8..20] == id
  {
    var b := Header(typ, len, id) + attr;
    assert b[0] == 1 && b[1] == 1 && b[2] == 0 && b[3] == len;
    assert (1 as bv8) & 0xC0 == 0;
    assert b[4..8] == COOKIE;
    assert b[8..20] == id;
  }

  lemma AttrParts(len: bv8, value: Octets)
    requires |value| == len as int
    ensures var attr := [0, 0x20, 0, len] + value;
      |attr| == 4 + |value| && Pair(attr, 0) == XOR_MAPPED && Pair(attr, 2) == |value| && attr[4..4 + |value|] == value
  {
  }

  /** A response carries back its transaction and the address it was made for:
      an IPv4 one written as IPv6 comes back as IPv4, and a zone is lost. */
  lemma ResponseRoundTrip(id: TxID, addr: AddrPort)
    ensures ParsedResponse(ResponseBytes(id, addr)) == Good(id, AddrPort(Zoneless(Unmap(addr.ip)), addr.port))
  {
    var ip, port := Unmap(addr.ip), XoredPort(addr.port);
    var len: bv8 := if ip.V6? then 20 else 8;
    var value := [0, FamilyOf(ip), port.hi, port.lo] + Xored(AsBytes(ip), id);
    var attr := [0, 0x20, 0, len] + value;
    assert attr == [0, 0x20, 0, len] + [0, FamilyOf(ip), port.hi, port.lo] + Xored(AsBytes(ip), id);
    ResponseHeader([1, 1], 4 + len, id, attr);
    AttrParts(len, value);
    var attrs := Attrs(attr);
    assert attrs[0] == Attr(XOR_MAPPED, value);
    ValueRoundTrip(id, ip, addr.port);
    FirstXorWins(attrs, id, None, 0);
  }

  lemma PortTwice(port: Port)
    ensures XoredPort(XoredPort(port)) == port
  {
    XorTwice(port.hi, 0x21);
    XorTwice(port.lo, 0x12);
  }

  lemma AddressOfBytes(ip: IP)
    requires ip == Unmap(ip)
    ensures SizeOf(FamilyOf(ip)) == |AsBytes(ip)| && Address(AsBytes(ip)) == Zoneless(ip)
  {
  }

  lemma Fields(a: bv8, b: bv8, c: bv8, d: bv8, x: Octets)
    ensures var v := [a, b, c, d] + x;
      v[1] == b && v[2] == c && v[3] == d && v[4..4 + |x|] == x && |v| == 4 + |x|
  {
  }

  lemma AddrInFields(v: Octets, id: TxID, x: Octets, family: bv8, port: Port)
    requires |v| == 4 + |x| && v[1] == family && Port(v[2], v[3]) == port && v[4..4 + |x|] == x
    requires |x| == SizeOf(family) && |x| > 0
    ensures AddrIn(v, id, true) == Some(AddrPort(Address(Xored(x, id)), XoredPort(port)))
  {
  }

  lemma ValueRoundTrip(id: TxID, ip: IP, port: Port)
    requires ip == Unmap(ip)
    ensures var p := XoredPort(port);
      AddrIn([0, FamilyOf(ip), p.hi, p.lo] + Xored(AsBytes(ip), id), id, true) == Some(AddrPort(Zoneless(ip), port))
  {
    var p, x := XoredPort(port), Xored(AsBytes(ip), id);
    Fields(0, FamilyOf(ip), p.hi, p.lo, x);
    AddressOfBytes(ip);
    AddrInFields([0, FamilyOf(ip), p.hi, p.lo] + x, id, x, FamilyOf(ip), p);
    XoredTwice(AsBytes(ip), id);
    PortTwice(port);
  }
}
