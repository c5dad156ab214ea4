/** internal/acl/filter.go: the stateful filter on what a node receives. */
module AclFilter {
  import opened Common
  import opened Ipv4
  import opened AclPolicy

  const FLOW_TTL := 300 * SECOND
  const MAX_FLOWS := 65536
  const GOSSIP_PORT := 4798

  type Port = p: int | 0 <= p < 0x1_0000

  datatype Flow = Flow(proto: byte, src: Addr, dst: Addr, sport: Port, dport: Port)

  datatype Header = NotIPv4 | Header(flow: Flow, first: bool)

  function Parse(pkt: Bytes): Header
  {
    if |pkt| < 20 || pkt[0] / 16 != 4 then NotIPv4
    else
      var ihl := pkt[0] % 16 * 4;
      var proto, first := pkt[9], Word(pkt, 6) % 0x2000 == 0;
      if first && (proto == TCP || proto == UDP) && |pkt| >= ihl + 4
      then Header(Flow(proto, AddrAt(pkt, 12), AddrAt(pkt, 16), Word(pkt, ihl), Word(pkt, ihl + 2)), first)
      else Header(Flow(proto, AddrAt(pkt, 12), AddrAt(pkt, 16), 0, 0), first)
  }

  function Reply(f: Flow): Flow
  {
    Flow(f.proto, f.dst, f.src, f.dport, f.sport)
  }

  /** Echo replies and errors match by addresses only. */
  predicate IcmpAnswers(f: Flow, k: Flow)
  {
    f.proto == ICMP && k.proto == ICMP && k.src == f.dst && k.dst == f.src
  }

  datatype State = State(flows: map<Flow, int>, swept: int)

  function Swept(s: State, now: int): State
  {
    if |s.flows| >= MAX_FLOWS && now - s.swept > SECOND
    then State(map k | k in s.flows && now - s.flows[k] <= FLOW_TTL :: s.flows[k], now)
    else s
  }

  predicate NotFull(s: State, now: int)
  {
    |Swept(s, now).flows| < MAX_FLOWS
  }

  function Remember(s: State, k: Flow, now: int): State
  {
    var t := Swept(s, now);
    if NotFull(s, now) then t.(flows := t.flows[k := now]) else t
  }

  predicate Live(s: State, k: Flow, now: int)
  {
    k in s.flows && now - s.flows[k] < FLOW_TTL
  }

  predicate IsGossip(f: Flow, self: Addr)
  {
    (f.proto == TCP || f.proto == UDP) && f.dst == self && f.dport == GOSSIP_PORT
  }

  /** A broadcast is judged as reaching this member. */
  function Target(pol: Policy, self: Addr, dst: Addr): Addr
  {
    if MULTICAST.Contains(dst) || dst == LIMITED || dst == pol.subnet.Last() then self else dst
  }

  ghost predicate PolicyAllows(pol: Policy, self: Addr, f: Flow)
  {
    Verdict(pol, f.src, Target(pol, self, f.dst), f.proto, f.dport)
  }

  /** What Inbound answers and leaves behind. */
  ghost predicate Passes(s: State, pol: Policy, self: Addr, pkt: Bytes, now: int)
  {
    var h := Parse(pkt);
    h.NotIPv4? || !h.first || Live(s, Reply(h.flow), now)
    || (exists k :: IcmpAnswers(h.flow, k) && Live(s, k, now))
    || IsGossip(h.flow, self) || PolicyAllows(pol, self, h.flow)
  }

  ghost function AfterInbound(s: State, pol: Policy, self: Addr, pkt: Bytes, now: int): State
  {
    var h := Parse(pkt);
    if h.NotIPv4? || !h.first then s
    else if Live(s, Reply(h.flow), now) then s.(flows := s.flows[Reply(h.flow) := now])
    else if (exists k :: IcmpAnswers(h.flow, k) && Live(s, k, now)) || IsGossip(h.flow, self) then s
    else if PolicyAllows(pol, self, h.flow) then Remember(s, h.flow, now)
    else s
  }

  function AfterOutbound(s: State, pkt: Bytes, now: int): State
  {
    var h := Parse(pkt);
    if h.NotIPv4? then s else Remember(s, h.flow, now)
  }

  class Filter {
    const pol: Policy
    const self: Addr
    var flows: map<Flow, int>
    var swept: int

    ghost function Abstract(): State
      reads this
    {
      State(flows, swept)
    }

    constructor (pol: Policy, self: Addr)
      ensures this.pol == pol && this.self == self && Abstract() == EMPTY
    {
      this.pol, this.self := pol, self;
      flows, swept := map[], -2 * SECOND;
    }

    method Sweep(now: int)
      modifies this
      ensures flows == map k | k in old(flows) && now - old(flows)[k] <= FLOW_TTL :: old(flows)[k]
      ensures swept == now
    {
      var todo := flows.Keys;
      while todo != {}
        invariant todo <= old(flows).Keys
        invariant flows == map k | k in old(flows) && (k in todo || now - old(flows)[k] <= FLOW_TTL) :: old(flows)[k]
        decreases todo
      {
        var x :| x in todo;
        todo := todo - {x};
        if now - flows[x] > FLOW_TTL {
          flows := flows - {x};
        }
      }
      swept := now;
    }

    method RememberLocked(k: Flow, now: int)
      modifies this
      ensures Abstract() == Remember(old(Abstract()), k, now)
    {
      if |flows| >= MAX_FLOWS && now - swept > SECOND {
        Sweep(now);
      }
      if |flows| < MAX_FLOWS {
        flows := flows[k := now];
      }
    }

    method Outbound(pkt: Bytes, now: int)
      modifies this
      ensures Abstract() == AfterOutbound(old(Abstract()), pkt, now)
    {
      var h := Parse(pkt);
      if h.Header? {
        RememberLocked(h.flow, now);
      }
    }

    method AnyIcmp(f: Flow, now: int) returns (ok: bool)
      ensures ok <==> exists k :: IcmpAnswers(f, k) && Live(Abstract(), k, now)
    {
      if f.proto == ICMP {
        var todo := flows.Keys;
        while todo != {}
          invariant todo <= flows.Keys
          invariant forall k :: IcmpAnswers(f, k) && Live(Abstract(), k, now) ==> k in todo
          decreases todo
        {
          var k :| k in todo;
          todo := todo - {k};
          if k.proto == ICMP && k.src == f.dst && k.dst == f.src && now - flows[k] < FLOW_TTL {
            assert IcmpAnswers(f, k) && Live(Abstract(), k, now);
            return true;
          }
        }
      }
      return false;
    }

    method Inbound(pkt: Bytes, now: int) returns (pass: bool)
      modifies this
      ensures pass <==> Passes(old(Abstract()), pol, self, pkt, now)
      ensures Abstract() == AfterInbound(old(Abstract()), pol, self, pkt, now)
    {
      var h := Parse(pkt);
      if h.NotIPv4? || !h.first {
        return true;
      }
      var reply := Flow(h.flow.proto, h.flow.dst, h.flow.src, h.flow.dport, h.flow.sport);
      if reply in flows && now - flows[reply] < FLOW_TTL {
        flows := flows[reply := now];
        return true;
      }
      var icmp := AnyIcmp(h.flow, now);
      if icmp {
        return true;
      }
      if (h.flow.proto == TCP || h.flow.proto == UDP) && h.flow.dst == self && h.flow.dport == GOSSIP_PORT {
        return true;
      }
      var dst := h.flow.dst;
      if MULTICAST.Contains(dst) || dst == LIMITED || dst == pol.subnet.Last() {
        dst := self;
      }
      var ok, _ := Allowed(pol, h.flow.src, dst, h.flow.proto, h.flow.dport);
      if ok {
        RememberLocked(h.flow, now);
      }
      return ok;
    }
  }

  /** A table that has never been swept: the zero time is long past. */
  const EMPTY := State(map[], -2 * SECOND)
}
