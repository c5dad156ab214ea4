/** Whole runs of BroadcastRead: what the calls emit together. */
module BroadcastRuns {
  import opened Ipv4
  import opened Broadcast
  import opened RateLimit
  import opened BroadcastRead

  /** A broadcast read from the interface, with the members of that moment. */
  datatype Arrival = Arrival(pkt: Bytes, src: Addr, peers: seq<Addr>, now: int)

  function Times(arrivals: seq<Arrival>): seq<int>
  {
    seq(|arrivals|, i requires 0 <= i < |arrivals| => arrivals[i].now)
  }

  /** Every broadcast the limiter admits, once per member, in order. */
  function Shared(w: Window, arrivals: seq<Arrival>): seq<Bytes>
  {
    if arrivals == [] then []
    else
      var init, a := arrivals[..|arrivals| - 1], arrivals[|arrivals| - 1];
      Shared(w, init) + if Admits(After(w, Times(init)), a.now, MAX_PPS) then WrapAll(a.pkt, a.src, a.peers) else []
  }

  function CallArrivals(c: Call, batch: seq<Bytes>): seq<Arrival>
  {
    if batch == [] then []
    else
      var pkt := batch[|batch| - 1];
      CallArrivals(c, batch[..|batch| - 1]) + ArrivalOf(c, pkt)
  }

  function ArrivalOf(c: Call, pkt: Bytes): seq<Arrival>
  {
    if c.member.ShouldForward(pkt) then [Arrival(pkt, c.member.self, c.peers, c.now)] else []
  }

  /** passed, sent: all that was emitted; kept, arrivals: all that was read. */
  datatype Trace = Trace(passed: seq<Bytes>, sent: seq<Bytes>, kept: seq<Bytes>, arrivals: seq<Arrival>, end: State)

  /** All calls bring buffers of one size. */
  predicate AllLegal(calls: seq<Call>, space: nat)
  {
    forall i :: 0 <= i < |calls| ==> Legal(calls[i]) && calls[i].space == space
  }

  function Run(s: State, calls: seq<Call>, space: nat): Trace
    requires AllLegal(calls, space)
  {
    if calls == [] then Trace([], [], [], [], s)
    else
      var t, c := Run(s, calls[..|calls| - 1], space), calls[|calls| - 1];
      var r := ReadOnce(t.end, c);
      var taken := if t.end.pending == [] then c.batch else [];
      Trace(t.passed + r.passed, t.sent + r.sent, t.kept + Passing(c.member, taken),
            t.arrivals + CallArrivals(c, taken), r.next)
  }

  // ---- proofs ----

  /** The packets that a buffer holds. */
  function Fitting(ps: seq<Bytes>, space: nat): seq<Bytes>
  {
    if ps == [] then []
    else (if |ps[0]| <= space then [ps[0]] else []) + Fitting(ps[1..], space)
  }

  lemma {:induction false} FittingAdds(a: seq<Bytes>, b: seq<Bytes>, space: nat)
    ensures Fitting(a + b, space) == Fitting(a, space) + Fitting(b, space)
  {
    if a == [] {
      assert a + b == b;
    } else {
      assert (a + b)[1..] == a[1..] + b;
      FittingAdds(a[1..], b, space);
    }
  }

  /** Draining takes packets off the front of the queue, sends in order those of
      them that fit a buffer, and stops only for want of buffers or packets. */
  lemma {:induction false} DrainConserves(pending: seq<Bytes>, slots: nat, space: nat)
    ensures var d := Drain(pending, slots, space);
      |d.rest| <= |pending| && d.rest == pending[|pending| - |d.rest|..]
      && d.sent == Fitting(pending[..|pending| - |d.rest|], space)
      && |d.sent| <= slots && (|d.sent| < slots ==> d.rest == [])
    decreases pending
  {
    if pending == [] || slots == 0 {
      assert pending[..0] == [];
    } else {
      var p := pending[0];
      var left := if |p| > space then slots else slots - 1;
      DrainConserves(pending[1..], left, space);
      TakenFirst(pending, Drain(pending[1..], left, space).rest, space);
    }
  }

  /** What is taken before rest, the first packet of it first. */
  lemma TakenFirst(pending: seq<Bytes>, rest: seq<Bytes>, space: nat)
    requires pending != [] && |rest| < |pending| && rest == pending[1..][|pending| - 1 - |rest|..]
    ensures rest == pending[|pending| - |rest|..]
    ensures Fitting(pending[..|pending| - |rest|], space)
         == (if |pending[0]| <= space then [pending[0]] else []) + Fitting(pending[1..][..|pending| - 1 - |rest|], space)
  {
    var taken := pending[..|pending| - |rest|];
    assert taken[1..] == pending[1..][..|pending| - 1 - |rest|];
  }

  /** Sent packets and those of the rest that fit are those of the queue that fit. */
  lemma DrainSplits(pending: seq<Bytes>, slots: nat, space: nat)
    ensures var d := Drain(pending, slots, space); d.sent + Fitting(d.rest, space) == Fitting(pending, space)
  {
    DrainConserves(pending, slots, space);
    var d := Drain(pending, slots, space);
    var n := |pending| - |d.rest|;
    FittingAdds(pending[..n], pending[n..], space);
    assert pending == pending[..n] + pending[n..];
  }

  /** One packet per member, in the order of the members. */
  lemma {:induction false} OnePerMember(pkt: Bytes, src: Addr, peers: seq<Addr>)
    ensures |WrapAll(pkt, src, peers)| == |peers|
    ensures forall i :: 0 <= i < |peers| ==> WrapAll(pkt, src, peers)[i] == Wrapped(pkt, src, peers[i])
  {
    if peers != [] {
      OnePerMember(pkt, src, peers[..|peers| - 1]);
    }
  }

  lemma OneMore(w: Window, arrivals: seq<Arrival>, a: Arrival)
    ensures var all, v := arrivals + [a], After(w, Times(arrivals));
            && After(w, Times(all)) == Count(v, a.now)
            && Shared(w, all) == Shared(w, arrivals) + if Admits(v, a.now, MAX_PPS) then WrapAll(a.pkt, a.src, a.peers) else []
  {
    var all := arrivals + [a];
    assert all[..|all| - 1] == arrivals;
    assert Times(all)[..|all| - 1] == Times(arrivals);
  }

  /** The queue of one batch continues that of the arrivals before it. */
  lemma {:induction false} EnqueueShares(
      s: State, w: Window, sent: seq<Bytes>, before: seq<Arrival>, c: Call, batch: seq<Bytes>)
    requires s.window == After(w, Times(before)) && sent + s.pending == Shared(w, before)
    ensures var t, all := Enqueue(s, c.member, c.peers, batch, c.now), before + CallArrivals(c, batch);
            t.window == After(w, Times(all)) && sent + t.pending == Shared(w, all)
  {
    if batch == [] {
      assert before + CallArrivals(c, batch) == before;
    } else {
      var init, pkt := batch[..|batch| - 1], batch[|batch| - 1];
      EnqueueShares(s, w, sent, before, c, init);
      EnqueueOneShares(Enqueue(s, c.member, c.peers, init, c.now), w, sent, before + CallArrivals(c, init), c, pkt);
      assert before + CallArrivals(c, batch) == before + CallArrivals(c, init) + ArrivalOf(c, pkt);
    }
  }

  lemma EnqueueOneShares(t: State, w: Window, sent: seq<Bytes>, all: seq<Arrival>, c: Call, pkt: Bytes)
    requires t.window == After(w, Times(all)) && sent + t.pending == Shared(w, all)
    ensures var u, more := EnqueueOne(t, c.member, c.peers, pkt, c.now), all + ArrivalOf(c, pkt);
            u.window == After(w, Times(more)) && sent + u.pending == Shared(w, more)
  {
    if c.member.ShouldForward(pkt) {
      OneMore(w, all, Arrival(pkt, c.member.self, c.peers, c.now));
      var x := if Admits(t.window, c.now, MAX_PPS) then WrapAll(pkt, c.member.self, c.peers) else [];
      assert sent + (t.pending + x) == (sent + t.pending) + x;
    } else {
      assert all + [] == all;
    }
  }

  /** What every prefix of a run keeps: the queue is the end of all that was
      shared, and what is no longer in it was sent in order if a buffer held it. */
  ghost predicate Accounted(w: Window, t: Trace, space: nat)
  {
    t.passed == t.kept
    && t.end.window == After(w, Times(t.arrivals))
    && Queued(Shared(w, t.arrivals), t.end.pending, t.sent, space)
  }

  ghost predicate Queued(all: seq<Bytes>, pending: seq<Bytes>, sent: seq<Bytes>, space: nat)
  {
    |pending| <= |all| && pending == all[|all| - |pending|..] && sent == Fitting(all[..|all| - |pending|], space)
  }

  lemma DrainAccounts(all: seq<Bytes>, pending: seq<Bytes>, sent: seq<Bytes>, slots: nat, space: nat)
    requires Queued(all, pending, sent, space)
    ensures var d := Drain(pending, slots, space); Queued(all, d.rest, sent + d.sent, space)
  {
    DrainConserves(pending, slots, space);
    var d := Drain(pending, slots, space);
    var n, k := |all| - |pending|, |pending| - |d.rest|;
    assert all[..n + k] == all[..n] + pending[..k];
    FittingAdds(all[..n], pending[..k], space);
  }

  /** A batch goes to the end of the queue and of all that was shared. */
  lemma BatchQueues(w: Window, t: Trace, c: Call, space: nat)
    requires Accounted(w, t, space)
    ensures var u, all := Enqueue(t.end, c.member, c.peers, c.batch, c.now), t.arrivals + CallArrivals(c, c.batch);
            u.window == After(w, Times(all)) && Queued(Shared(w, all), u.pending, t.sent, space)
  {
    var before := Shared(w, t.arrivals);
    var taken := before[..|before| - |t.end.pending|];
    assert taken + t.end.pending == before;
    EnqueueShares(t.end, w, taken, t.arrivals, c, c.batch);
    var u := Enqueue(t.end, c.member, c.peers, c.batch, c.now);
    assert (taken + u.pending)[|taken|..] == u.pending && (taken + u.pending)[..|taken|] == taken;
  }

  lemma BatchAccounts(w: Window, t: Trace, c: Call, space: nat)
    requires Accounted(w, t, space) && t.end.pending == [] && Legal(c) && c.space == space
    ensures var r, all := ReadOnce(t.end, c), t.arrivals + CallArrivals(c, c.batch);
            && r.passed == Passing(c.member, c.batch)
            && r.next.window == After(w, Times(all))
            && Queued(Shared(w, all), r.next.pending, t.sent + r.sent, space)
  {
    BatchQueues(w, t, c, space);
    EmptiedAccounts(Enqueue(t.end, c.member, c.peers, c.batch, c.now), Passing(c.member, c.batch),
                    Shared(w, t.arrivals + CallArrivals(c, c.batch)), t.sent, c.slots, space);
  }

  lemma EmptiedAccounts(u: State, passed: seq<Bytes>, all: seq<Bytes>, sent: seq<Bytes>, slots: nat, space: nat)
    requires Queued(all, u.pending, sent, space) && |passed| <= slots
    ensures var r := Emptied(u, passed, slots, space);
      r.passed == passed && r.next.window == u.window && Queued(all, r.next.pending, sent + r.sent, space)
  {
    DrainAccounts(all, u.pending, sent, slots - |passed|, space);
  }

  /** Nothing read is lost, changed, repeated or reordered: packets that are
      not broadcasts leave in the call that reads them, and every admitted
      broadcast has been taken off the queue once per member or is still pending,
      first in first out; what was taken off has left if a buffer could hold it. */
  lemma {:induction false} Conservation(w: Window, calls: seq<Call>, space: nat)
    requires AllLegal(calls, space)
    ensures Accounted(w, Run(State([], w), calls, space), space)
  {
    if calls != [] {
      var init, c := calls[..|calls| - 1], calls[|calls| - 1];
      Conservation(w, init, space);
      var t := Run(State([], w), init, space);
      if t.end.pending != [] {
        EmptiedAccounts(t.end, [], Shared(w, t.arrivals), t.sent, c.slots, space);
        assert t.arrivals + [] == t.arrivals && t.kept + [] == t.kept && t.passed + [] == t.passed;
      } else {
        BatchAccounts(w, t, c, space);
      }
    }
  }

  /** A broadcast fits for every member or for none. */
  lemma AllOrNone(pkt: Bytes, src: Addr, peers: seq<Addr>, space: nat)
    ensures Fitting(WrapAll(pkt, src, peers), space)
         == if |pkt| + WRAP_HEADER <= space then WrapAll(pkt, src, peers) else []
  {
    OnePerMember(pkt, src, peers);
    AllOneSize(WrapAll(pkt, src, peers), |pkt| + WRAP_HEADER, space);
  }

  lemma {:induction false} AllOneSize(ps: seq<Bytes>, size: nat, space: nat)
    requires forall p :: p in ps ==> |p| == size
    ensures Fitting(ps, space) == if size <= space then ps else []
  {
    if ps != [] {
      assert ps[0] in ps && ps == [ps[0]] + ps[1..];
      AllOneSize(ps[1..], size, space);
    }
  }

  /** The broadcasts that a buffer holds once they are wrapped. */
  predicate Roomy(arrivals: seq<Arrival>, space: nat)
  {
    forall i :: 0 <= i < |arrivals| ==> |arrivals[i].pkt| + WRAP_HEADER <= space
  }

  lemma {:induction false} SharedFit(w: Window, arrivals: seq<Arrival>, space: nat)
    requires Roomy(arrivals, space)
    ensures Fitting(Shared(w, arrivals), space) == Shared(w, arrivals)
  {
    if arrivals != [] {
      var init, a := arrivals[..|arrivals| - 1], arrivals[|arrivals| - 1];
      SharedFit(w, init, space);
      AllOrNone(a.pkt, a.src, a.peers, space);
      var more := if Admits(After(w, Times(init)), a.now, MAX_PPS) then WrapAll(a.pkt, a.src, a.peers) else [];
      FittingAdds(Shared(w, init), more, space);
    }
  }

  /** So with buffers that hold the wrapped broadcasts what was sent and what is
      pending are all that was shared. */
  lemma NothingIsDropped(w: Window, calls: seq<Call>, space: nat)
    requires AllLegal(calls, space) && Roomy(Run(State([], w), calls, space).arrivals, space)
    ensures var t := Run(State([], w), calls, space); t.sent + t.end.pending == Shared(w, t.arrivals)
  {
    Conservation(w, calls, space);
    var t := Run(State([], w), calls, space);
    var all := Shared(w, t.arrivals);
    var taken := all[..|all| - |t.end.pending|];
    SharedFit(w, t.arrivals, space);
    assert all == taken + t.end.pending;
    FittingAdds(taken, t.end.pending, space);
    FittingShrinks(taken, space);
    FittingShrinks(t.end.pending, space);
  }

  lemma {:induction false} FittingShrinks(ps: seq<Bytes>, space: nat)
    ensures |Fitting(ps, space)| <= |ps| && (|Fitting(ps, space)| == |ps| ==> Fitting(ps, space) == ps)
  {
    if ps != [] {
      FittingShrinks(ps[1..], space);
      assert ps == [ps[0]] + ps[1..];
    }
  }

  /** Any second of any run shares less than twice MAX_PPS broadcasts. */
  lemma StormIsLimited(w: Window, calls: seq<Call>, space: nat, from: int)
    requires AllLegal(calls, space)
    requires var ts := Times(Run(State([], w), calls, space).arrivals); NonDecreasing(ts) && Unused(w, ts)
    ensures AdmittedWithin(w, Times(Run(State([], w), calls, space).arrivals), MAX_PPS, from) < 2 * MAX_PPS
  {
    LessThanTwice(w, Times(Run(State([], w), calls, space).arrivals), MAX_PPS, from);
  }

  /** A call that drains makes progress whenever it has a buffer. */
  lemma DrainProgress(s: State, c: Call)
    requires Legal(c) && c.slots > 0 && s.pending != []
    ensures |ReadOnce(s, c).next.pending| < |s.pending|
  {
    DrainShortens(s.pending, c.slots, c.space);
  }

  lemma {:induction false} DrainShortens(pending: seq<Bytes>, slots: nat, space: nat)
    ensures |Drain(pending, slots, space).rest| <= |pending|
    ensures pending != [] && slots > 0 ==> |Drain(pending, slots, space).rest| < |pending|
    decreases pending
  {
    if pending != [] && slots > 0 {
      DrainShortens(pending[1..], slots, space);
      DrainShortens(pending[1..], slots - 1, space);
    }
  }
}
