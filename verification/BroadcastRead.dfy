/** internal/tunwrap/broadcast.go, Read and drainLocked: outgoing packets are
    filtered in place, and each broadcast leaves as one packet per member over
    this and later calls. */
module BroadcastRead {
  import opened Common
  import opened Ipv4
  import opened Broadcast
  import opened RateLimit

  const MAX_PPS := 200

  // ---- one call, on values ----

  /** What lives between calls. */
  datatype State = State(pending: seq<Bytes>, window: Window)

  /** One call of Read: the room at that moment, what the interface would
      deliver, the clock, and the buffers (slots of them, with space bytes). */
  datatype Call = Call(member: Member, peers: seq<Addr>, batch: seq<Bytes>, now: int, slots: nat, space: nat)

  /** passed: packets left as they are; sent: wrapped ones, in the order emitted. */
  datatype Result = Result(passed: seq<Bytes>, sent: seq<Bytes>, next: State)

  function PassOne(m: Member, pkt: Bytes): seq<Bytes>
  {
    if m.ShouldForward(pkt) then [] else [pkt]
  }

  function Passing(m: Member, batch: seq<Bytes>): (r: seq<Bytes>)
    ensures |r| <= |batch|
  {
    if batch == [] then []
    else Passing(m, batch[..|batch| - 1]) + PassOne(m, batch[|batch| - 1])
  }

  function WrapAll(pkt: Bytes, src: Addr, peers: seq<Addr>): seq<Bytes>
  {
    if peers == [] then []
    else WrapAll(pkt, src, peers[..|peers| - 1]) + [Wrapped(pkt, src, peers[|peers| - 1])]
  }

  /** A broadcast the limiter admits adds one packet per member. */
  function EnqueueOne(s: State, m: Member, peers: seq<Addr>, pkt: Bytes, now: int): State
  {
    if !m.ShouldForward(pkt) then s
    else
      State(s.pending + (if Admits(s.window, now, MAX_PPS) then WrapAll(pkt, m.self, peers) else []),
            Count(s.window, now))
  }

  function Enqueue(s: State, m: Member, peers: seq<Addr>, batch: seq<Bytes>, now: int): State
  {
    if batch == [] then s
    else EnqueueOne(Enqueue(s, m, peers, batch[..|batch| - 1], now), m, peers, batch[|batch| - 1], now)
  }

  /** The loop over a batch, one packet further. */
  lemma OneFurther(s: State, m: Member, peers: seq<Addr>, batch: seq<Bytes>, i: nat, now: int)
    requires i < |batch|
    ensures Passing(m, batch[..i + 1]) == Passing(m, batch[..i]) + PassOne(m, batch[i])
    ensures Enqueue(s, m, peers, batch[..i + 1], now)
         == EnqueueOne(Enqueue(s, m, peers, batch[..i], now), m, peers, batch[i], now)
    ensures batch[i..][0] == batch[i] && batch[i..][1..] == batch[i + 1..] && batch[i] in batch
  {
    assert batch[..i + 1][..i] == batch[..i];
  }

  datatype Drained = Drained(sent: seq<Bytes>, rest: seq<Bytes>)

  /** Take packets from the front into slots; one too long is dropped. */
  function Drain(pending: seq<Bytes>, slots: nat, space: nat): (d: Drained)
    ensures |d.sent| <= slots
    decreases pending
  {
    if pending == [] || slots == 0 then Drained([], pending)
    else if |pending[0]| > space then Drain(pending[1..], slots, space)
    else
      var d := Drain(pending[1..], slots - 1, space);
      Drained([pending[0]] + d.sent, d.rest)
  }

  predicate Legal(c: Call)
  {
    |c.batch| <= c.slots && forall p :: p in c.batch ==> |p| <= c.space
  }

  /** The batch is taken only when nothing is pending. */
  function ReadOnce(s: State, c: Call): Result
    requires Legal(c)
  {
    if s.pending != [] then Emptied(s, [], c.slots, c.space)
    else Emptied(Enqueue(s, c.member, c.peers, c.batch, c.now), Passing(c.member, c.batch), c.slots, c.space)
  }

  /** The queue goes into the buffers behind the packets that passed. */
  function Emptied(t: State, passed: seq<Bytes>, slots: nat, space: nat): Result
    requires |passed| <= slots
  {
    var d := Drain(t.pending, slots - |passed|, space);
    Result(passed, d.sent, t.(pending := d.rest))
  }

  // ---- the same in place ----

  /** Distinct buffers of one size, and room for their sizes. */
  ghost predicate Buffers(bufs: seq<array<byte>>, sizes: array<nat>, offset: nat, space: nat)
  {
    |bufs| == sizes.Length
    && (forall j :: 0 <= j < |bufs| ==> bufs[j].Length == offset + space)
    && forall i, j :: 0 <= i < j < |bufs| ==> bufs[i] != bufs[j]
  }

  /** What each buffer holds after offset bytes: nothing if its size is beyond it. */
  type Memory = seq<Option<Bytes>>

  ghost function View(bufs: seq<array<byte>>, sizes: array<nat>, offset: nat): (m: Memory)
    reads bufs, sizes
    ensures |m| == |bufs|
  {
    seq(|bufs|, j requires 0 <= j < |bufs| reads bufs, sizes =>
      Packet(bufs[j], if j < sizes.Length then Some(sizes[j]) else None, offset))
  }

  ghost function Packet(buf: array<byte>, size: Option<nat>, offset: nat): Option<Bytes>
    reads buf
  {
    if size.Some? && offset + size.value <= buf.Length then Some(buf[offset..offset + size.value]) else None
  }

  /** The buffers from k on hold the packets ps. */
  ghost predicate Holds(m: Memory, k: nat, ps: seq<Bytes>)
  {
    k + |ps| <= |m| && forall j :: 0 <= j < |ps| ==> m[k + j] == Some(ps[j])
  }

  lemma HoldsMore(m: Memory, k: nat, ps: seq<Bytes>, p: Bytes)
    requires Holds(m, k, ps) && k + |ps| < |m|
    ensures Holds(m[k + |ps| := Some(p)], k, ps + [p])
  {
  }

  lemma HoldsStill(m: Memory, k: nat, ps: seq<Bytes>, n: nat, p: Bytes)
    requires Holds(m, k, ps) && n < |m| && (n < k || k + |ps| <= n)
    ensures Holds(m[n := Some(p)], k, ps)
  {
  }

  /** The packet at the head of what is held, and the rest. */
  lemma HoldsSplit(m: Memory, k: nat, ps: seq<Bytes>)
    requires Holds(m, k, ps) && ps != []
    ensures m[k] == Some(ps[0]) && Holds(m, k + 1, ps[1..])
  {
    assert m[k + 0] == Some(ps[0]);
    forall j | 0 <= j < |ps| - 1 ensures m[k + 1 + j] == Some(ps[1..][j]) {
      assert m[k + (j + 1)] == Some(ps[j + 1]);
    }
  }

  /** Put a packet into buffer n. */
  method Put(bufs: seq<array<byte>>, sizes: array<nat>, offset: nat, ghost space: nat, n: nat, p: Bytes)
    requires Buffers(bufs, sizes, offset, space) && n < |bufs| && |p| <= space
    modifies bufs, sizes
    ensures View(bufs, sizes, offset) == old(View(bufs, sizes, offset))[n := Some(p)]
  {
    Copy(bufs[n], offset, p);
    sizes[n] := |p|;
    assert bufs[n][offset..offset + |p|] == p;
    forall j | 0 <= j < |bufs| && j != n ensures View(bufs, sizes, offset)[j] == old(View(bufs, sizes, offset))[j] {
      assert bufs[j] != bufs[n];
    }
  }

  /** The packet in buffer i, the first of those held from there on. */
  method NextPacket(bufs: seq<array<byte>>, sizes: array<nat>, offset: nat, i: nat, ghost ps: seq<Bytes>) returns (pkt: Bytes)
    requires ps != [] && |bufs| == sizes.Length && Holds(View(bufs, sizes, offset), i, ps)
    ensures pkt == ps[0] && i < |bufs| && Holds(View(bufs, sizes, offset), i + 1, ps[1..])
  {
    HoldsSplit(View(bufs, sizes, offset), i, ps);
    assert View(bufs, sizes, offset)[i] == Some(ps[0]);
    pkt := bufs[i][offset..offset + sizes[i]];
  }

  /** Move a packet to the front of the buffers, behind those already there. */
  method Keep(bufs: seq<array<byte>>, sizes: array<nat>, offset: nat, ghost space: nat, out: nat, pkt: Bytes,
              ghost front: seq<Bytes>, ghost k: nat, ghost back: seq<Bytes>)
    requires Buffers(bufs, sizes, offset, space) && |pkt| <= space && out == |front| < k && out < |bufs|
    requires Holds(View(bufs, sizes, offset), 0, front) && Holds(View(bufs, sizes, offset), k, back)
    modifies bufs, sizes
    ensures Holds(View(bufs, sizes, offset), 0, front + [pkt]) && Holds(View(bufs, sizes, offset), k, back)
  {
    ghost var m := View(bufs, sizes, offset);
    Put(bufs, sizes, offset, space, out, pkt);
    HoldsMore(m, 0, front, pkt);
    HoldsStill(m, k, back, out, pkt);
  }

  /** The interface's own Read. */
  method Receive(bufs: seq<array<byte>>, sizes: array<nat>, offset: nat, ghost space: nat, batch: seq<Bytes>)
    requires Buffers(bufs, sizes, offset, space) && |batch| <= |bufs|
    requires forall p :: p in batch ==> |p| <= space
    modifies bufs, sizes
    ensures Holds(View(bufs, sizes, offset), 0, batch)
  {
    for i := 0 to |batch|
      invariant Holds(View(bufs, sizes, offset), 0, batch[..i])
    {
      Keep(bufs, sizes, offset, space, i, batch[i], batch[..i], i + 1, []);
      assert batch[..i + 1] == batch[..i] + [batch[i]];
    }
    assert batch[..|batch|] == batch;
  }

  class Device {
    const self: Addr
    const subnet: Prefix
    var mode: Mode
    var peers: seq<Addr>
    var pending: seq<Bytes>
    var window: Window

    constructor (self: Addr, subnet: Prefix, mode: Mode)
      ensures this.self == self && this.subnet == subnet && this.mode == mode && peers == [] && pending == []
    {
      this.self, this.subnet, this.mode := self, subnet, mode;
      peers, pending, window := [], [], Window(-SECOND, 0);
    }

    function Member(): Member
      reads this
    {
      Broadcast.Member(self, subnet, mode)
    }

    ghost function Abstract(): State
      reads this
    {
      State(pending, window)
    }

    method SetPeers(ips: seq<Addr>)
      modifies this`peers
      ensures peers == ips
    {
      peers := ips;
    }

    method Allow(now: int) returns (ok: bool)
      modifies this`window
      ensures window == Count(old(window), now) && ok == Admits(old(window), now, MAX_PPS)
    {
      if now - window.start >= SECOND {
        window := Window(now, 0);
      }
      window := window.(count := window.count + 1);
      ok := window.count <= MAX_PPS;
    }

    /** A packet read from the interface that is to be shared. */
    method Share(pkt: Bytes, now: int)
      requires Member().ShouldForward(pkt)
      modifies this`pending, this`window
      ensures Abstract() == EnqueueOne(old(Abstract()), Member(), peers, pkt, now)
    {
      var ok := Allow(now);
      if ok {
        for i := 0 to |peers|
          invariant pending == old(pending) + WrapAll(pkt, self, peers[..i])
          invariant window == Count(old(window), now)
        {
          var p := Wrap(Member(), pkt, peers[i]);
          assert peers[..i + 1][..i] == peers[..i];
          pending := pending + [p[..]];
        }
        assert peers[..|peers|] == peers;
      }
    }

    /** Fill buffers from n0 on with pending packets. */
    method DrainLocked(bufs: seq<array<byte>>, sizes: array<nat>, offset: nat, ghost space: nat, n0: nat,
                       ghost before: seq<Bytes>) returns (n: nat)
      requires Buffers(bufs, sizes, offset, space) && n0 == |before|
      requires Holds(View(bufs, sizes, offset), 0, before)
      modifies this`pending, bufs, sizes
      ensures var d := Drain(old(pending), |bufs| - n0, space);
              pending == d.rest && n == n0 + |d.sent| && Holds(View(bufs, sizes, offset), 0, before + d.sent)
    {
      n := n0;
      ghost var done: seq<Bytes> := [];
      while n < |bufs| && pending != []
        invariant n0 <= n <= |bufs| && n == n0 + |done|
        invariant var d, e := Drain(old(pending), |bufs| - n0, space), Drain(pending, |bufs| - n, space);
                  d.sent == done + e.sent && d.rest == e.rest
        invariant Holds(View(bufs, sizes, offset), 0, before + done)
        decreases |pending|
      {
        var p := pending[0];
        pending := pending[1..];
        if offset + |p| > bufs[n].Length {
          continue;
        }
        Keep(bufs, sizes, offset, space, n, p, before + done, n + 1, []);
        assert before + (done + [p]) == before + done + [p];
        done := done + [p];
        n := n + 1;
      }
      assert done == Drain(old(pending), |bufs| - n0, space).sent;
    }

    /** What the loop makes of a packet it has read from the buffers: a broadcast
        joins the queue, another one moves to their front. */
    method FilterOne(bufs: seq<array<byte>>, sizes: array<nat>, offset: nat, ghost space: nat, ghost k: nat, out: nat, pkt: Bytes,
                     ghost front: seq<Bytes>, ghost back: seq<Bytes>, now: int) returns (out': nat)
      requires Buffers(bufs, sizes, offset, space) && |pkt| <= space && out == |front| < k && out < |bufs|
      requires Holds(View(bufs, sizes, offset), 0, front) && Holds(View(bufs, sizes, offset), k, back)
      modifies this`pending, this`window, bufs, sizes
      ensures Abstract() == EnqueueOne(old(Abstract()), Member(), peers, pkt, now)
      ensures out' == |front + PassOne(Member(), pkt)|
      ensures Holds(View(bufs, sizes, offset), 0, front + PassOne(Member(), pkt)) && Holds(View(bufs, sizes, offset), k, back)
    {
      if Member().ShouldForward(pkt) {
        assert front + [] == front;
        ShareOnly(bufs, sizes, offset, pkt, front, k, back, now);
        out' := out;
      } else {
        Keep(bufs, sizes, offset, space, out, pkt, front, k, back);
        out' := out + 1;
      }
    }

    /** The body of the loop, for buffer i. */
    method FilterNext(bufs: seq<array<byte>>, sizes: array<nat>, offset: nat, ghost space: nat, i: nat, out: nat,
                      ghost front: seq<Bytes>, ghost back: seq<Bytes>, now: int) returns (out': nat)
      requires Buffers(bufs, sizes, offset, space) && out == |front| <= i && back != [] && |back[0]| <= space
      requires Holds(View(bufs, sizes, offset), 0, front) && Holds(View(bufs, sizes, offset), i, back)
      modifies this`pending, this`window, bufs, sizes
      ensures Abstract() == EnqueueOne(old(Abstract()), Member(), peers, back[0], now)
      ensures out' == |front + PassOne(Member(), back[0])|
      ensures Holds(View(bufs, sizes, offset), 0, front + PassOne(Member(), back[0]))
      ensures Holds(View(bufs, sizes, offset), i + 1, back[1..])
    {
      var pkt := NextPacket(bufs, sizes, offset, i, back);
      out' := FilterOne(bufs, sizes, offset, space, i + 1, out, pkt, front, back[1..], now);
    }

    /** Sharing a packet leaves the buffers alone. */
    method ShareOnly(ghost bufs: seq<array<byte>>, ghost sizes: array<nat>, ghost offset: nat, pkt: Bytes,
                     ghost front: seq<Bytes>, ghost k: nat, ghost back: seq<Bytes>, now: int)
      requires Member().ShouldForward(pkt)
      requires Holds(View(bufs, sizes, offset), 0, front) && Holds(View(bufs, sizes, offset), k, back)
      modifies this`pending, this`window
      ensures Abstract() == EnqueueOne(old(Abstract()), Member(), peers, pkt, now)
      ensures Holds(View(bufs, sizes, offset), 0, front) && Holds(View(bufs, sizes, offset), k, back)
    {
      Share(pkt, now);
    }

    method Filter(bufs: seq<array<byte>>, sizes: array<nat>, offset: nat, ghost space: nat,
                  ghost batch: seq<Bytes>, n: nat, now: int) returns (out: nat)
      requires Buffers(bufs, sizes, offset, space) && n == |batch| && forall p :: p in batch ==> |p| <= space
      requires Holds(View(bufs, sizes, offset), 0, batch)
      modifies this`pending, this`window, bufs, sizes
      ensures Abstract() == Enqueue(old(Abstract()), Member(), peers, batch, now)
      ensures var passed := Passing(Member(), batch);
              out == |passed| && Holds(View(bufs, sizes, offset), 0, passed)
    {
      out := 0;
      ghost var s, m, front: seq<Bytes> := Abstract(), Member(), [];
      for i := 0 to n
        invariant Member() == m && front == Passing(m, batch[..i]) && out == |front| <= i
        invariant Abstract() == Enqueue(s, m, peers, batch[..i], now)
        invariant Holds(View(bufs, sizes, offset), 0, front) && Holds(View(bufs, sizes, offset), i, batch[i..])
      {
        OneFurther(s, m, peers, batch, i, now);
        out := FilterNext(bufs, sizes, offset, space, i, out, front, batch[i..], now);
        front := front + PassOne(m, batch[i]);
      }
      assert batch[..n] == batch;
    }

    /** What a call delivers lies in the first n buffers. */
    ghost predicate Delivered(r: Result, bufs: seq<array<byte>>, sizes: array<nat>, offset: nat, n: nat)
      reads this, bufs, sizes
    {
      Abstract() == r.next && n == |r.passed + r.sent| && Holds(View(bufs, sizes, offset), 0, r.passed + r.sent)
    }

    /** What the interface delivers, without the broadcasts. */
    method TakeBatch(bufs: seq<array<byte>>, sizes: array<nat>, offset: nat, ghost space: nat, batch: seq<Bytes>, now: int)
      returns (out: nat)
      requires Buffers(bufs, sizes, offset, space) && |batch| <= |bufs| && forall p :: p in batch ==> |p| <= space
      modifies this`pending, this`window, bufs, sizes
      ensures Abstract() == Enqueue(old(Abstract()), Member(), peers, batch, now)
      ensures out == |Passing(Member(), batch)| && Holds(View(bufs, sizes, offset), 0, Passing(Member(), batch))
    {
      Receive(bufs, sizes, offset, space, batch);
      out := Filter(bufs, sizes, offset, space, batch, |batch|, now);
    }

    /** The pending packets behind those in front. */
    method Append(bufs: seq<array<byte>>, sizes: array<nat>, offset: nat, ghost space: nat, out: nat, ghost front: seq<Bytes>)
      returns (n: nat)
      requires Buffers(bufs, sizes, offset, space) && out == |front| && Holds(View(bufs, sizes, offset), 0, front)
      modifies this`pending, bufs, sizes
      ensures Delivered(Emptied(old(Abstract()), front, |bufs|, space), bufs, sizes, offset, n)
    {
      n := DrainLocked(bufs, sizes, offset, space, out, front);
    }

    /** Read with nothing pending: batch is what the interface delivers. */
    method ReadBatch(bufs: seq<array<byte>>, sizes: array<nat>, offset: nat, ghost space: nat,
                     batch: seq<Bytes>, now: int, ghost c: Call) returns (n: nat)
      requires Buffers(bufs, sizes, offset, space) && Legal(c) && pending == []
      requires c == Call(Member(), peers, batch, now, |bufs|, space)
      modifies this`pending, this`window, bufs, sizes
      ensures Delivered(ReadOnce(old(Abstract()), c), bufs, sizes, offset, n)
    {
      var out := TakeBatch(bufs, sizes, offset, space, batch, now);
      n := Append(bufs, sizes, offset, space, out, Passing(c.member, batch));
    }

    method Read(bufs: seq<array<byte>>, sizes: array<nat>, offset: nat, ghost space: nat, batch: seq<Bytes>, now: int)
      returns (n: nat)
      requires Buffers(bufs, sizes, offset, space)
      requires Legal(Call(Member(), peers, batch, now, |bufs|, space))
      modifies this`pending, this`window, bufs, sizes
      ensures var c := Call(old(Member()), old(peers), batch, now, |bufs|, space);
              Delivered(ReadOnce(old(Abstract()), c), bufs, sizes, offset, n)
    {
      ghost var c := Call(Member(), peers, batch, now, |bufs|, space);
      if pending != [] {
        n := Append(bufs, sizes, offset, space, 0, []);
      } else {
        n := ReadBatch(bufs, sizes, offset, space, batch, now, c);
      }
    }
  }
}
