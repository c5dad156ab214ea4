/** internal/controller/service.go: which addresses of a room's subnet its members
    get. */
module Hosts {
  import opened Common
  import opened Ipv4

  /** usableHost: neither the network's own address nor the broadcast one. */
  predicate UsableHost(p: Prefix, a: Addr)
  {
    p.Contains(a) && a != p.Masked().addr && a != p.Last()
  }

  /** The search of allocateIP from a on; it ends where the subnet ends. */
  function FirstFree(p: Prefix, used: set<Addr>, a: nat): (r: Option<Addr>)
    ensures r.Some? ==> a <= r.value && UsableHost(p, r.value) && r.value !in used
    ensures r.Some? ==> forall b: Addr :: a <= b < r.value && UsableHost(p, b) ==> b in used
    decreases SPACE - a
  {
    if a >= SPACE || !p.Contains(a) then None
    else if UsableHost(p, a) && a !in used then Some(a)
    else FirstFree(p, used, a + 1)
  }

  function Lowest(p: Prefix, used: set<Addr>): Option<Addr>
  {
    FirstFree(p, used, p.Masked().addr + 1)
  }

  lemma {:induction false} NoneFree(p: Prefix, used: set<Addr>, a: nat, b: Addr)
    requires FirstFree(p, used, a).None? && p.Masked().addr <= a <= b && UsableHost(p, b)
    ensures b in used
    decreases SPACE - a
  {
    p.ContainsIsInterval(b);
    p.ContainsIsInterval(a);
    if a < b {
      NoneFree(p, used, a + 1, b);
    }
  }

  /** The search yields the lowest free address, and none exactly if none is free. */
  lemma LowestIsLowest(p: Prefix, used: set<Addr>)
    ensures var r := Lowest(p, used);
      (r.Some? ==> UsableHost(p, r.value) && r.value !in used
                   && forall b: Addr :: b < r.value && UsableHost(p, b) ==> b in used)
      && (r.None? <==> forall b :: UsableHost(p, b) ==> b in used)
  {
    var r := Lowest(p, used);
    forall b: Addr | UsableHost(p, b) && (r.None? || b < r.value) ensures b in used {
      HostsAfter(p, b);
      if r.None? {
        NoneFree(p, used, p.Masked().addr + 1, b);
      }
    }
  }

  lemma HostsAfter(p: Prefix, b: Addr)
    requires UsableHost(p, b)
    ensures p.Masked().addr + 1 <= b
  {
    p.ContainsIsInterval(b);
  }

  /** The addresses from lo up to but not including hi. */
  function Between(lo: nat, hi: nat): (s: set<Addr>)
    requires lo <= hi <= SPACE
    ensures |s| == hi - lo
    ensures forall a :: a in s <==> lo <= a < hi
  {
    if lo == hi then {} else Between(lo, hi - 1) + {hi - 1}
  }

  /** While fewer addresses are taken than the subnet has hosts, one is free. */
  lemma AddressLeft(p: Prefix, used: set<Addr>)
    requires |used| < p.Size() - 2
    ensures Lowest(p, used).Some?
  {
    LowestIsLowest(p, used);
    if Lowest(p, used).None? {
      var hosts := Between(p.Masked().addr + 1, p.Last());
      forall a | a in hosts ensures a in used {
        p.ContainsIsInterval(a);
        assert UsableHost(p, a);
      }
      Subset(hosts, used);
    }
  }

  function Addresses(members: seq<Addr>): set<Addr>
  {
    set a | a in members
  }

  method UsedBy(members: seq<Addr>) returns (used: set<Addr>)
    ensures used == Addresses(members)
  {
    used := {};
    for i := 0 to |members|
      invariant used == Addresses(members[..i])
    {
      assert members[..i + 1] == members[..i] + [members[i]];
      used := used + {members[i]};
    }
    assert members[..|members|] == members;
  }

  /** allocateIP. */
  method AllocateIP(p: Prefix, members: seq<Addr>) returns (r: Option<Addr>)
    ensures r == Lowest(p, Addresses(members))
  {
    var used := UsedBy(members);
    var a: nat := p.Masked().addr + 1;
    while a < SPACE && p.Contains(a)
      invariant FirstFree(p, used, a) == Lowest(p, used)
      decreases SPACE - a
    {
      if UsableHost(p, a) && a !in used {
        return Some(a);
      }
      a := a + 1;
    }
    return None;
  }
}
