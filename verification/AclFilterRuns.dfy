/** Whole histories of one filter: why a packet was let in, and which replies
    always are. */
module AclFilterRuns {
  import opened Ipv4
  import opened AclPolicy
  import opened AclFilter

  datatype Call = Out(pkt: Bytes, at: int) | In(pkt: Bytes, at: int)

  ghost function After(pol: Policy, self: Addr, hist: seq<Call>): State
  {
    if hist == [] then EMPTY
    else
      var s, c := After(pol, self, hist[..|hist| - 1]), hist[|hist| - 1];
      match c
      case Out(pkt, at) => AfterOutbound(s, pkt, at)
      case In(pkt, at) => AfterInbound(s, pol, self, pkt, at)
  }

  /** The clock of the calls does not go back. */
  predicate Ordered(hist: seq<Call>)
  {
    (forall i :: 0 <= i < |hist| ==> hist[i].at >= 0)
    && forall i, j :: 0 <= i < j < |hist| ==> hist[i].at <= hist[j].at
  }

  // ---- why a packet passes ----

  /** Call i is where flow k starts: this node sent it, or the policy let it in. */
  ghost predicate Root(pol: Policy, self: Addr, c: Call, k: Flow)
  {
    var h := Parse(c.pkt);
    h.Header? && h.flow == k && (c.Out? || (h.first && PolicyAllows(pol, self, k)))
  }

  /** Call i is a root of k, or a reply to k less than five minutes after a
      call that is so in turn. */
  ghost predicate Rooted(pol: Policy, self: Addr, hist: seq<Call>, i: nat, k: Flow)
    requires i < |hist|
    decreases i
  {
    Root(pol, self, hist[i], k)
    || (hist[i].In? && Parse(hist[i].pkt).Header? && Reply(Parse(hist[i].pkt).flow) == k
        && exists j :: 0 <= j < i && Rooted(pol, self, hist, j, k) && hist[i].at - hist[j].at < FLOW_TTL)
  }

  lemma {:induction false} RootedIsLocal(pol: Policy, self: Addr, hist: seq<Call>, more: seq<Call>, i: nat, k: Flow)
    requires i < |hist| && Rooted(pol, self, hist, i, k)
    ensures Rooted(pol, self, hist + more, i, k)
    decreases i
  {
    if !Root(pol, self, hist[i], k) {
      var j :| 0 <= j < i && Rooted(pol, self, hist, j, k) && hist[i].at - hist[j].at < FLOW_TTL;
      RootedIsLocal(pol, self, hist, more, j, k);
    }
  }

  /** Some call at time t accounts for flow k. */
  ghost predicate Accounted(pol: Policy, self: Addr, hist: seq<Call>, k: Flow, t: int)
  {
    exists i :: 0 <= i < |hist| && hist[i].at == t && Rooted(pol, self, hist, i, k)
  }

  lemma AccountedStill(pol: Policy, self: Addr, hist: seq<Call>, c: Call, k: Flow, t: int)
    requires Accounted(pol, self, hist, k, t)
    ensures Accounted(pol, self, hist + [c], k, t)
  {
    var i :| 0 <= i < |hist| && hist[i].at == t && Rooted(pol, self, hist, i, k);
    RootedIsLocal(pol, self, hist, [c], i, k);
  }

  /** The new call accounts for k at its own time. */
  lemma AccountedNow(pol: Policy, self: Addr, hist: seq<Call>, c: Call, k: Flow)
    requires Root(pol, self, c, k)
             || (c.In? && Parse(c.pkt).Header? && Reply(Parse(c.pkt).flow) == k
                 && exists t :: Accounted(pol, self, hist, k, t) && c.at - t < FLOW_TTL)
    ensures Accounted(pol, self, hist + [c], k, c.at)
  {
    var all, n := hist + [c], |hist|;
    assert all[n] == c;
    if !Root(pol, self, c, k) {
      var t :| Accounted(pol, self, hist, k, t) && c.at - t < FLOW_TTL;
      var i :| 0 <= i < |hist| && hist[i].at == t && Rooted(pol, self, hist, i, k);
      RootedIsLocal(pol, self, hist, [c], i, k);
    }
    assert Rooted(pol, self, all, n, k);
  }

  /** A step either leaves an entry alone or sets it on account of the call. */
  lemma EntryStep(s: State, pol: Policy, self: Addr, c: Call, k: Flow)
    ensures var u := if c.Out? then AfterOutbound(s, c.pkt, c.at) else AfterInbound(s, pol, self, c.pkt, c.at);
            k in u.flows ==>
              || (k in s.flows && u.flows[k] == s.flows[k])
              || (u.flows[k] == c.at
                  && (Root(pol, self, c, k)
                      || (c.In? && Parse(c.pkt).Header? && Reply(Parse(c.pkt).flow) == k && Live(s, k, c.at))))
  {
  }

  /** Every entry of the table has a chain of calls behind it, and the table
      stays within its bound. */
  lemma {:induction false} TableAccounted(pol: Policy, self: Addr, hist: seq<Call>)
    ensures var s := After(pol, self, hist);
            && (forall k :: k in s.flows ==> Accounted(pol, self, hist, k, s.flows[k]))
            && |s.flows| <= MAX_FLOWS
  {
    if hist != [] {
      var init, c := hist[..|hist| - 1], hist[|hist| - 1];
      TableAccounted(pol, self, init);
      var s, u := After(pol, self, init), After(pol, self, hist);
      assert init + [c] == hist;
      forall k | k in u.flows
        ensures Accounted(pol, self, hist, k, u.flows[k])
      {
        EntryStep(s, pol, self, c, k);
        if k in s.flows && u.flows[k] == s.flows[k] {
          AccountedStill(pol, self, init, c, k, s.flows[k]);
        } else {
          AccountedNow(pol, self, init, c, k);
        }
      }
      TableBounded(s, pol, self, c);
    }
  }

  lemma SweptShrinks(s: State, now: int)
    ensures |Swept(s, now).flows| <= |s.flows|
  {
    assert Swept(s, now).flows.Keys <= s.flows.Keys;
    Common.Subset(Swept(s, now).flows.Keys, s.flows.Keys);
  }

  lemma TableBounded(s: State, pol: Policy, self: Addr, c: Call)
    requires |s.flows| <= MAX_FLOWS
    ensures |(if c.Out? then AfterOutbound(s, c.pkt, c.at) else AfterInbound(s, pol, self, c.pkt, c.at)).flows| <= MAX_FLOWS
  {
    SweptShrinks(s, c.at);
    var h := Parse(c.pkt);
    if h.Header? && c.In? && Live(s, Reply(h.flow), c.at) {
      assert s.flows[Reply(h.flow) := c.at].Keys == s.flows.Keys;
    }
  }

  /** A first fragment that passes is allowed by the policy, is gossip to this
      node, or answers a flow with an unbroken chain back to its root. */
  lemma PassIsJustified(pol: Policy, self: Addr, hist: seq<Call>, pkt: Bytes, at: int)
    requires Passes(After(pol, self, hist), pol, self, pkt, at)
    requires Parse(pkt).Header? && Parse(pkt).first
    ensures var f := Parse(pkt).flow;
            || PolicyAllows(pol, self, f)
            || IsGossip(f, self)
            || exists k, t :: (k == Reply(f) || IcmpAnswers(f, k)) && Accounted(pol, self, hist, k, t) && at - t < FLOW_TTL
  {
    TableAccounted(pol, self, hist);
    var s, f := After(pol, self, hist), Parse(pkt).flow;
    if Live(s, Reply(f), at) {
      assert Accounted(pol, self, hist, Reply(f), s.flows[Reply(f)]);
    } else if exists k :: IcmpAnswers(f, k) && Live(s, k, at) {
      var k :| IcmpAnswers(f, k) && Live(s, k, at);
      assert Accounted(pol, self, hist, k, s.flows[k]);
    }
  }

  // ---- which replies pass ----

  /** A packet sent is remembered exactly when the table, swept if it may be,
      has room: a full table does not even refresh a flow it has. */
  lemma OutboundRemembers(s: State, pkt: Bytes, now: int)
    requires Parse(pkt).Header?
    ensures var k, u := Parse(pkt).flow, AfterOutbound(s, pkt, now);
      if NotFull(s, now) then k in u.flows && u.flows[k] == now && u.flows - {k} == Swept(s, now).flows - {k}
      else u == Swept(s, now)
  {
  }

  /** A flow not yet five minutes old is not forgotten. */
  lemma FlowStays(s: State, pol: Policy, self: Addr, c: Call, k: Flow, t: int)
    requires k in s.flows && t <= s.flows[k] && c.at - t < FLOW_TTL && t <= c.at
    ensures var u := if c.Out? then AfterOutbound(s, c.pkt, c.at) else AfterInbound(s, pol, self, c.pkt, c.at);
            k in u.flows && t <= u.flows[k]
  {
  }

  lemma {:induction false} FlowLasts(pol: Policy, self: Addr, hist: seq<Call>, n: nat, k: Flow, t: int)
    requires n <= |hist| && var s := After(pol, self, hist[..n]); k in s.flows && t <= s.flows[k]
    requires forall i :: n <= i < |hist| ==> t <= hist[i].at < t + FLOW_TTL
    ensures var s := After(pol, self, hist); k in s.flows && t <= s.flows[k]
    decreases |hist|
  {
    if n == |hist| {
      assert hist[..n] == hist;
    } else {
      var init := hist[..|hist| - 1];
      assert init[..n] == hist[..n];
      FlowLasts(pol, self, init, n, k, t);
      FlowStays(After(pol, self, init), pol, self, hist[|hist| - 1], k, t);
    }
  }

  /** A reply to a packet this node sent while its table had room passes for
      five minutes, whatever the rules say and whatever happens in between. */
  lemma ReplyPasses(pol: Policy, self: Addr, hist: seq<Call>, n: nat, reply: Bytes, at: int)
    requires Ordered(hist) && n < |hist| && hist[n].Out? && Parse(hist[n].pkt).Header?
    requires NotFull(After(pol, self, hist[..n]), hist[n].at)
    requires Parse(reply).Header? && Reply(Parse(reply).flow) == Parse(hist[n].pkt).flow
    requires hist[|hist| - 1].at <= at < hist[n].at + FLOW_TTL
    ensures Passes(After(pol, self, hist), pol, self, reply, at)
  {
    var k, t := Parse(hist[n].pkt).flow, hist[n].at;
    assert hist[..n + 1][..n] == hist[..n];
    OutboundRemembers(After(pol, self, hist[..n]), hist[n].pkt, t);
    FlowLasts(pol, self, hist, n + 1, k, t);
  }
}
