/** internal/acl/acl.go: how a room's rules decide. */
module AclPolicy {
  import opened Ipv4

  datatype PortRange = PortRange(proto: int, first: nat, last: nat)

  /** ports empty: all. */
  datatype Rule = Rule(from: seq<string>, to: seq<string>, ports: seq<PortRange>)

  datatype Member = Member(name: string, ip: Addr, tags: seq<string>)

  /** What parsing an address or a network as text gives; Foreign is IPv6. */
  datatype Parsed<T> = Invalid | Foreign | V4(value: T)

  /** The text functions of Go's libraries that the rules rest on; two names
      are equal when their folded forms are. */
  datatype Text = Text(prefix: string -> Parsed<Prefix>, addr: string -> Parsed<Addr>, fold: string -> string)

  datatype Policy = Policy(rules: seq<Rule>, members: seq<Member>, subnet: Prefix, text: Text)

  predicate HasPrefix(s: string, p: string)
  {
    p <= s
  }

  function MemberAt(members: seq<Member>, ip: Addr): seq<Member>
  {
    if members == [] then []
    else if members[0].ip == ip then [members[0]]
    else MemberAt(members[1..], ip)
  }

  predicate Matches(pol: Policy, sel: string, addr: Addr, to: bool)
  {
    var m := MemberAt(pol.members, addr);
    if sel == "*" then true
    else if sel == "internet" then to && !pol.subnet.Contains(addr)
    else if HasPrefix(sel, "tag:") then m != [] && sel[4..] in m[0].tags
    else if '/' in sel then
      var p := pol.text.prefix(sel); p.V4? && p.value.Contains(addr)
    else
      match pol.text.addr(sel)
      case V4(a) => a == addr
      case Foreign => false
      case Invalid => m != [] && pol.text.fold(m[0].name) == pol.text.fold(sel)
  }

  predicate PortMatches(p: PortRange, proto: int, port: nat)
  {
    p.proto == proto && (proto == ICMP || p.first <= port <= p.last)
  }

  /** A rule allows a packet: some From, some To, and some port range or none. */
  ghost predicate RuleAllows(pol: Policy, r: Rule, src: Addr, dst: Addr, proto: int, port: nat)
  {
    (exists s :: s in r.from && Matches(pol, s, src, false))
    && (exists s :: s in r.to && Matches(pol, s, dst, true))
    && (r.ports == [] || exists p :: p in r.ports && PortMatches(p, proto, port))
  }

  /** Without rules everything is allowed; else some rule has to. */
  ghost predicate Verdict(pol: Policy, src: Addr, dst: Addr, proto: int, port: nat)
  {
    pol.rules == [] || exists r :: r in pol.rules && RuleAllows(pol, r, src, dst, proto, port)
  }

  method Any(pol: Policy, sels: seq<string>, a: Addr, to: bool) returns (ok: bool)
    ensures ok <==> exists s :: s in sels && Matches(pol, s, a, to)
  {
    for i := 0 to |sels|
      invariant forall s :: s in sels[..i] ==> !Matches(pol, s, a, to)
    {
      if Matches(pol, sels[i], a, to) {
        return true;
      }
    }
    assert sels[..|sels|] == sels;
    return false;
  }

  method AnyPort(ports: seq<PortRange>, proto: int, port: nat) returns (ok: bool)
    ensures ok <==> exists p :: p in ports && PortMatches(p, proto, port)
  {
    for i := 0 to |ports|
      invariant forall p :: p in ports[..i] ==> !PortMatches(p, proto, port)
    {
      if PortMatches(ports[i], proto, port) {
        return true;
      }
    }
    assert ports[..|ports|] == ports;
    return false;
  }

  /** The verdict, and the least index of a rule that allows the packet. */
  method Allowed(pol: Policy, src: Addr, dst: Addr, proto: int, port: nat) returns (ok: bool, rule: int)
    ensures ok <==> Verdict(pol, src, dst, proto, port)
    ensures pol.rules == [] || !ok ==> rule == -1
    ensures pol.rules != [] && ok ==> 0 <= rule < |pol.rules| && RuleAllows(pol, pol.rules[rule], src, dst, proto, port)
    ensures forall j :: 0 <= j < rule ==> !RuleAllows(pol, pol.rules[j], src, dst, proto, port)
  {
    if pol.rules == [] {
      return true, -1;
    }
    for i := 0 to |pol.rules|
      invariant forall j :: 0 <= j < i ==> !RuleAllows(pol, pol.rules[j], src, dst, proto, port)
    {
      var r := pol.rules[i];
      var from := Any(pol, r.from, src, false);
      if !from {
        continue;
      }
      var to := Any(pol, r.to, dst, true);
      if !to {
        continue;
      }
      if r.ports == [] {
        assert RuleAllows(pol, r, src, dst, proto, port) && r in pol.rules;
        return true, i;
      }
      var p := AnyPort(r.ports, proto, port);
      if p {
        assert RuleAllows(pol, r, src, dst, proto, port) && r in pol.rules;
        return true, i;
      }
    }
    return false, -1;
  }

  /** A rule allows by itself: which other rules there are does not matter. */
  lemma RuleAlone(pol: Policy, rules: seq<Rule>, r: Rule, src: Addr, dst: Addr, proto: int, port: nat)
    ensures RuleAllows(pol, r, src, dst, proto, port) <==> RuleAllows(pol.(rules := rules), r, src, dst, proto, port)
  {
    assert forall s, a, to :: Matches(pol, s, a, to) <==> Matches(pol.(rules := rules), s, a, to);
  }

  /** Adding rules to a list that has some only allows more. */
  lemma MoreRulesAllowMore(pol: Policy, more: seq<Rule>, src: Addr, dst: Addr, proto: int, port: nat)
    requires pol.rules != [] && forall r :: r in pol.rules ==> r in more
    requires Verdict(pol, src, dst, proto, port)
    ensures Verdict(pol.(rules := more), src, dst, proto, port)
  {
    var r :| r in pol.rules && RuleAllows(pol, r, src, dst, proto, port);
    RuleAlone(pol, more, r, src, dst, proto, port);
  }

  /** The order of the rules does not change the verdict. */
  lemma OrderDoesNotMatter(pol: Policy, other: seq<Rule>, src: Addr, dst: Addr, proto: int, port: nat)
    requires multiset(other) == multiset(pol.rules)
    ensures Verdict(pol, src, dst, proto, port) <==> Verdict(pol.(rules := other), src, dst, proto, port)
  {
    var pol' := pol.(rules := other);
    assert forall r :: r in other <==> r in multiset(other);
    assert forall r :: r in pol.rules <==> r in multiset(pol.rules);
    assert |other| == |multiset(other)| == |pol.rules|;
    if pol.rules != [] {
      if Verdict(pol, src, dst, proto, port) {
        MoreRulesAllowMore(pol, other, src, dst, proto, port);
      }
      if Verdict(pol', src, dst, proto, port) {
        MoreRulesAllowMore(pol', pol.rules, src, dst, proto, port);
      }
    }
  }

  /** The first rule is different: it forbids all it does not allow. */
  lemma FirstRuleForbids(pol: Policy, src: Addr, dst: Addr, proto: int, port: nat)
    requires pol.rules == []
    ensures Verdict(pol, src, dst, proto, port)
    ensures !Verdict(pol.(rules := [Rule([], ["*"], [])]), src, dst, proto, port)
  {
    var r := Rule([], ["*"], []);
    assert !RuleAllows(pol.(rules := [r]), r, src, dst, proto, port);
  }
}
