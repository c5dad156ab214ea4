/** internal/node/disco.go: which paths are used, over every run. Transaction IDs
    are fresh, and a packet's sender holds the key it was opened with. */
module DiscoSafety {
  import opened DiscoPaths
  import opened DiscoState
  import opened DiscoRuns

  /** A ping that was written down for a peer. */
  datatype Issue = Issue(id: NodeId, key: Key, tx: Tx, to: Addr, at: int)

  /** A pong that confirmed a path: sentAt is when its ping was sent. */
  datatype Confirm = Confirm(id: NodeId, key: Key, tx: Tx, from: Addr, sentAt: int, at: int)

  datatype World = World(st: State, issued: set<Issue>, log: seq<Confirm>, now: int)

  datatype Step =
    | Hear(ctrl: Ctrl, told: seq<Told>)
    | Hint(ids: seq<NodeId>, addrs: seq<Addr>)
    | Gossip(id: NodeId, addrs: seq<Addr>)
    | TickAll(draws: map<NodeId, seq<Draw>>)
    | Receive(pkt: Packet, pongSealed: bool, draw: Draw)

  const START := State(map[], map[], map[])

  function Pending(st: State): set<Issue>
  {
    set id, tx | id in st.peers && tx in st.peers[id].sent ::
      Issue(id, st.peers[id].key, tx, st.peers[id].sent[tx].to, st.peers[id].sent[tx].at)
  }

  predicate Unused(issued: set<Issue>, tx: Tx)
  {
    forall x :: x in issued ==> x.tx != tx
  }

  predicate Drawn(draws: map<NodeId, seq<Draw>>, id: NodeId, i: nat)
  {
    id in draws && i < |draws[id]|
  }

  ghost predicate FreshDraws(issued: set<Issue>, draws: map<NodeId, seq<Draw>>)
  {
    (forall id, i: nat :: Drawn(draws, id, i) ==> Unused(issued, draws[id][i].tx))
    && forall a, i: nat, b, j: nat :: Drawn(draws, a, i) && Drawn(draws, b, j) && draws[a][i].tx == draws[b][j].tx
         ==> a == b && i == j
  }

  ghost predicate Legal(w: World, step: Step, now: int)
  {
    w.now <= now
    && match step
       case Hear(_, told) => DistinctIds(told) && forall t :: t in told ==> Proper(t)
       case Hint(_, _) => true
       case Gossip(_, _) => true
       case TickAll(draws) => Enough(w.st, draws) && FreshDraws(w.issued, draws)
       case Receive(_, _, draw) => Unused(w.issued, draw.tx)
  }

  /** What a packet confirms, if anything. */
  function Confirmed(st: State, pkt: Packet, now: int): seq<Confirm>
    requires KeysLead(st)
  {
    if pkt.sender in st.byKey && pkt.msg.PongMsg? && Confirms(st.peers[st.byKey[pkt.sender]], pkt.msg.tx, pkt.from) then
      var p := st.peers[st.byKey[pkt.sender]];
      [Confirm(st.byKey[pkt.sender], pkt.sender, pkt.msg.tx, pkt.from, p.sent[pkt.msg.tx].at, now)]
    else []
  }

  ghost function AfterStep(net: Net, w: World, step: Step, now: int): State
    requires KeysLead(w.st) && Legal(w, step, now)
  {
    match step
    case Hear(ctrl, told) => SetPeers(w.st, ctrl, told, now)
    case Hint(ids, addrs) => AddHints(w.st, ids, addrs)
    case Gossip(id, addrs) => AddGossip(w.st, id, addrs)
    case TickAll(draws) => Tick(net, w.st, now, draws)
    case Receive(pkt, pongSealed, draw) => Handle(net, w.st, pkt, now, pongSealed, draw).0
  }

  ghost function Next(net: Net, w: World, step: Step, now: int): World
    requires KeysLead(w.st) && Legal(w, step, now)
  {
    var u := AfterStep(net, w, step, now);
    World(u, w.issued + Pending(u), w.log + if step.Receive? then Confirmed(w.st, step.pkt, now) else [], now)
  }

  // ---- the invariant ----

  /** A number stands for one ping only. */
  ghost predicate OneIssue(issued: set<Issue>)
  {
    forall x, y :: x in issued && y in issued && x.tx == y.tx ==> x == y
  }

  function Origin(c: Confirm): Issue
  {
    Issue(c.id, c.key, c.tx, c.from, c.sentAt)
  }

  /** Every confirmation answers a ping that was sent to the very address it came
      from, no ping is answered twice, and an answered ping is not pending. */
  predicate Logged(log: seq<Confirm>, issued: set<Issue>, pending: set<Issue>, now: int)
  {
    (forall i :: 0 <= i < |log| ==>
       Origin(log[i]) in issued && Origin(log[i]) !in pending && log[i].sentAt <= log[i].at <= now)
    && forall i, j :: 0 <= i < j < |log| ==> log[i].tx != log[j].tx
  }

  predicate Backs(c: Confirm, p: Peer)
  {
    p.best.Path? && c.id == p.id && c.key == p.key && c.from == p.best.addr && c.at == p.best.at
    && p.best.rtt == c.at - c.sentAt
  }

  predicate Backed(p: Peer, log: seq<Confirm>)
  {
    p.best.Path? ==> exists i :: 0 <= i < |log| && Backs(log[i], p)
  }

  ghost predicate Inv(w: World)
  {
    Sound(w.st)
    && Pending(w.st) <= w.issued && OneIssue(w.issued)
    && (forall x :: x in w.issued ==> x.at <= w.now)
    && Logged(w.log, w.issued, Pending(w.st), w.now)
    && forall id :: id in w.st.peers ==> Backed(w.st.peers[id], w.log)
  }

  // ---- pings over one step ----

  /** What is pending was pending or is new, and a new number is drawn for one
      ping only. */
  ghost predicate PendingFrom(u: set<Issue>, pending: set<Issue>, issued: set<Issue>, now: int)
  {
    (forall x :: x in u ==> x in pending || (Unused(issued, x.tx) && x.at == now))
    && forall x, y :: x in u && y in u && x !in pending && y !in pending && x.tx == y.tx ==> x == y
  }

  lemma IssuedKeep(u: set<Issue>, pending: set<Issue>, issued: set<Issue>, now: int)
    requires PendingFrom(u, pending, issued, now) && pending <= issued && OneIssue(issued)
    ensures OneIssue(issued + u)
  {
  }

  lemma LoggedKeep(log: seq<Confirm>, u: set<Issue>, pending: set<Issue>, issued: set<Issue>, was: int, now: int)
    requires PendingFrom(u, pending, issued, now) && Logged(log, issued, pending, was) && was <= now
    ensures Logged(log, issued + u, u, now)
  {
    forall i | 0 <= i < |log| ensures Origin(log[i]) !in u {
      assert Origin(log[i]) in issued;
    }
  }

  lemma KeptPending(u: State, st: State, issued: set<Issue>, now: int)
    requires AllKept(u, st)
    ensures PendingFrom(Pending(u), Pending(st), issued, now)
  {
    forall x | x in Pending(u) ensures x in Pending(st) {
      assert Kept(u.peers[x.id], st);
    }
  }

  lemma HintsPending(st: State, ids: seq<NodeId>, id: NodeId, addrs: seq<Addr>)
    ensures Pending(AddHints(st, ids, addrs)) == Pending(st) == Pending(AddGossip(st, id, addrs))
  {
    var u, v := AddHints(st, ids, addrs), AddGossip(st, id, addrs);
    forall x ensures x in Pending(u) <==> x in Pending(st) {
      assert x.id in u.peers <==> x.id in st.peers;
    }
    forall x ensures x in Pending(v) <==> x in Pending(st) {
      assert x.id in v.peers <==> x.id in st.peers;
    }
  }

  lemma TickPeerKeeps(net: Net, p: Peer, now: int, draws: seq<Draw>)
    requires Bounded(p) && |draws| >= |p.candidates| + |p.learned| + |p.hints| + |p.gossip| + 1
    ensures var q := TickPeer(net, p, now, draws).0;
      q.id == p.id && q.key == p.key && Bounded(q) && (q.best == p.best || q.best.None?)
      && forall tx :: tx in q.sent ==>
           (tx in p.sent && q.sent[tx] == p.sent[tx])
           || (q.sent[tx].at == now && exists i :: 0 <= i < |draws| && draws[i].tx == tx)
  {
    var q := p.(sent := Expire(p.sent, now), best := Dropped(p.best, now));
    ExpireShrinks(p.sent, now);
    PingAllKeeps(q.key, q.sent, Targets(net, q), draws, now);
  }

  lemma ExpireShrinks(sent: map<Tx, Ping>, now: int)
    ensures |Expire(sent, now)| <= |sent|
  {
    Common.Subset(Expire(sent, now).Keys, sent.Keys);
  }

  /** A ping that tick added was drawn in it. */
  lemma TickNew(net: Net, st: State, now: int, draws: map<NodeId, seq<Draw>>, x: Issue)
    returns (i: nat)
    requires Sound(st) && Enough(st, draws)
    requires x in Pending(Tick(net, st, now, draws)) && x !in Pending(st)
    ensures x.at == now && Drawn(draws, x.id, i) && draws[x.id][i].tx == x.tx
  {
    var p := st.peers[x.id];
    TickPeerKeeps(net, p, now, draws[x.id]);
    var q := TickPeer(net, p, now, draws[x.id]).0;
    assert Tick(net, st, now, draws).peers[x.id] == q;
    assert !(x.tx in p.sent && q.sent[x.tx] == p.sent[x.tx]);
    i :| 0 <= i < |draws[x.id]| && draws[x.id][i].tx == x.tx;
  }

  /** tick for all peers keeps one number for one ping. */
  lemma TickPending(net: Net, w: World, now: int, draws: map<NodeId, seq<Draw>>)
    requires Sound(w.st) && Enough(w.st, draws) && FreshDraws(w.issued, draws)
    ensures PendingFrom(Pending(Tick(net, w.st, now, draws)), Pending(w.st), w.issued, now)
  {
    var u, v := Pending(Tick(net, w.st, now, draws)), Pending(w.st);
    forall x | x in u && x !in v ensures Unused(w.issued, x.tx) && x.at == now {
      var i := TickNew(net, w.st, now, draws, x);
    }
    forall x, y | x in u && y in u && x !in v && y !in v && x.tx == y.tx ensures x == y {
      var i := TickNew(net, w.st, now, draws, x);
      var j := TickNew(net, w.st, now, draws, y);
      SameNumber(Tick(net, w.st, now, draws), x, y);
    }
  }

  lemma IsPending(st: State, x: Issue)
    ensures x in Pending(st) <==>
      x.id in st.peers && st.peers[x.id].key == x.key && x.tx in st.peers[x.id].sent
      && st.peers[x.id].sent[x.tx] == Ping(x.to, x.at)
  {
  }

  lemma SameNumber(st: State, x: Issue, y: Issue)
    requires x in Pending(st) && y in Pending(st) && x.id == y.id && x.tx == y.tx
    ensures x == y
  {
  }

  // ---- packets ----

  lemma PingedKeeps(p: Peer, tx: Tx, from: Addr, now: int, pongSealed: bool, draw: Draw)
    requires Bounded(p)
    ensures var q := Pinged(p, tx, from, now, pongSealed, draw).0;
      q.id == p.id && q.key == p.key && Bounded(q) && q.best == p.best
      && forall t :: t in q.sent ==> (t in p.sent && q.sent[t] == p.sent[t]) || (q.sent[t].at == now && t == draw.tx)
  {
    PingAllKeeps(p.key, p.sent, [from], [draw], now);
  }

  lemma PongedKeeps(net: Net, p: Peer, tx: Tx, from: Addr, now: int)
    requires Bounded(p)
    ensures var q := Ponged(net, p, tx, from, now).0;
      q.id == p.id && q.key == p.key && Bounded(q) && q.sent == (if Confirms(p, tx, from) then p.sent - {tx} else p.sent)
      && (q.best == p.best
          || (Confirms(p, tx, from) && q.best == Path(from, now - p.sent[tx].at, now)))
  {
    if Confirms(p, tx, from) {
      Common.Subset((p.sent - {tx}).Keys, p.sent.Keys);
    }
  }

  lemma PingedPending(st: State, id: NodeId, q: Peer, issued: set<Issue>, now: int, tx: Tx)
    requires id in st.peers && q.key == st.peers[id].key && Unused(issued, tx)
    requires forall t :: t in q.sent ==>
               (t in st.peers[id].sent && q.sent[t] == st.peers[id].sent[t]) || (q.sent[t].at == now && t == tx)
    ensures PendingFrom(Pending(st.(peers := st.peers[id := q])), Pending(st), issued, now)
  {
    var u := st.(peers := st.peers[id := q]);
    forall x | x in Pending(u) && x !in Pending(st) ensures x.id == id && x.tx == tx && x.at == now {
      IsPending(u, x);
      IsPending(st, x);
    }
    forall x, y | x in Pending(u) && y in Pending(u) && x !in Pending(st) && y !in Pending(st) ensures x == y {
      SameNumber(u, x, y);
    }
  }

  lemma PongedPending(st: State, id: NodeId, q: Peer, tx: Tx)
    requires id in st.peers && q.key == st.peers[id].key && tx in st.peers[id].sent
    requires q.sent == st.peers[id].sent - {tx}
    ensures var p := st.peers[id];
      Pending(st.(peers := st.peers[id := q])) == Pending(st) - {Issue(id, p.key, tx, p.sent[tx].to, p.sent[tx].at)}
  {
    var u, p := st.(peers := st.peers[id := q]), st.peers[id];
    var gone := Issue(id, p.key, tx, p.sent[tx].to, p.sent[tx].at);
    forall x ensures x in Pending(u) <==> x in Pending(st) && x != gone {
      IsPending(u, x);
      IsPending(st, x);
    }
  }

  /** Changing what a peer does but not who it is keeps the tables agreeing. */
  predicate SameCards(u: State, st: State)
  {
    u.byKey == st.byKey && u.byCtrl == st.byCtrl && u.peers.Keys == st.peers.Keys
    && forall id :: id in st.peers ==> u.peers[id].id == st.peers[id].id && u.peers[id].key == st.peers[id].key
  }

  lemma SameCardsKeep(u: State, st: State)
    requires Sound(st) && SameCards(u, st) && forall id :: id in u.peers ==> Bounded(u.peers[id])
    ensures Sound(u)
  {
  }

  lemma OnePeerKeeps(st: State, id: NodeId, q: Peer)
    requires Sound(st) && id in st.peers && q.id == id && q.key == st.peers[id].key && Bounded(q)
    ensures var u := st.(peers := st.peers[id := q]); Sound(u) && SameCards(u, st)
  {
    SameCardsKeep(st.(peers := st.peers[id := q]), st);
  }

  lemma HandleKeeps(net: Net, st: State, pkt: Packet, now: int, pongSealed: bool, draw: Draw)
    requires Sound(st)
    ensures var u := Handle(net, st, pkt, now, pongSealed, draw).0; Sound(u) && SameCards(u, st)
  {
    if pkt.sender in st.byKey {
      var id := st.byKey[pkt.sender];
      var p := st.peers[id];
      if pkt.msg.PingMsg? {
        PingedKeeps(p, pkt.msg.tx, pkt.from, now, pongSealed, draw);
        OnePeerKeeps(st, id, Pinged(p, pkt.msg.tx, pkt.from, now, pongSealed, draw).0);
      } else {
        PongedKeeps(net, p, pkt.msg.tx, pkt.from, now);
        OnePeerKeeps(st, id, Ponged(net, p, pkt.msg.tx, pkt.from, now).0);
      }
    }
  }

  lemma TickKeeps(net: Net, st: State, now: int, draws: map<NodeId, seq<Draw>>)
    requires Sound(st) && Enough(st, draws)
    ensures var u := Tick(net, st, now, draws); Sound(u) && SameCards(u, st)
  {
    forall id | id in st.peers
      ensures var q := TickPeer(net, st.peers[id], now, draws[id]).0;
        q.id == st.peers[id].id && q.key == st.peers[id].key && Bounded(q)
    {
      TickPeerKeeps(net, st.peers[id], now, draws[id]);
    }
  }

  lemma StepSound(net: Net, w: World, step: Step, now: int)
    requires Sound(w.st) && Legal(w, step, now)
    ensures Sound(Next(net, w, step, now).st)
  {
    match step
    case Hear(ctrl, told) => SetPeersKeeps(w.st, ctrl, told, now);
    case Hint(ids, addrs) => SameCardsKeep(AddHints(w.st, ids, addrs), w.st);
    case Gossip(id, addrs) => SameCardsKeep(AddGossip(w.st, id, addrs), w.st);
    case TickAll(draws) => TickKeeps(net, w.st, now, draws);
    case Receive(pkt, pongSealed, draw) => HandleKeeps(net, w.st, pkt, now, pongSealed, draw);
  }

  /** All steps but a confirming pong only add to what is pending. */
  lemma StepPending(net: Net, w: World, step: Step, now: int)
    requires Sound(w.st) && Legal(w, step, now)
    ensures PendingFrom(Pending(Next(net, w, step, now).st), Pending(w.st), w.issued, now)
  {
    match step
    case Hear(ctrl, told) =>
      SetPeersKept(w.st, ctrl, told, now);
      KeptPending(SetPeers(w.st, ctrl, told, now), w.st, w.issued, now);
    case Hint(ids, addrs) => HintsPending(w.st, ids, 0, addrs);
    case Gossip(id, addrs) => HintsPending(w.st, [], id, addrs);
    case TickAll(draws) => TickPending(net, w, now, draws);
    case Receive(pkt, pongSealed, draw) => ReceivePending(net, w, pkt, now, pongSealed, draw);
  }

  lemma ReceivePending(net: Net, w: World, pkt: Packet, now: int, pongSealed: bool, draw: Draw)
    requires Sound(w.st) && Unused(w.issued, draw.tx)
    ensures PendingFrom(Pending(Handle(net, w.st, pkt, now, pongSealed, draw).0), Pending(w.st), w.issued, now)
  {
    if pkt.sender in w.st.byKey {
      var id := w.st.byKey[pkt.sender];
      var p := w.st.peers[id];
      PingedKeeps(p, pkt.msg.tx, pkt.from, now, pongSealed, draw);
      PongedKeeps(net, p, pkt.msg.tx, pkt.from, now);
      var q := if pkt.msg.PingMsg? then Pinged(p, pkt.msg.tx, pkt.from, now, pongSealed, draw).0
               else Ponged(net, p, pkt.msg.tx, pkt.from, now).0;
      PingedPending(w.st, id, q, w.issued, now, draw.tx);
    }
  }

  // ---- the log over one step ----

  /** A confirmation answers a pending ping, which then is pending no more. */
  lemma ConfirmTakes(net: Net, st: State, pkt: Packet, now: int, pongSealed: bool, draw: Draw)
    requires Sound(st) && Confirmed(st, pkt, now) != []
    ensures var c := Confirmed(st, pkt, now)[0];
      Origin(c) in Pending(st) && c.at == now
      && Pending(Handle(net, st, pkt, now, pongSealed, draw).0) == Pending(st) - {Origin(c)}
  {
    var id := st.byKey[pkt.sender];
    PongedKeeps(net, st.peers[id], pkt.msg.tx, pkt.from, now);
    PongedPending(st, id, Ponged(net, st.peers[id], pkt.msg.tx, pkt.from, now).0, pkt.msg.tx);
  }

  lemma LogGrows(log: seq<Confirm>, c: Confirm, issued: set<Issue>, pending: set<Issue>, now: int)
    requires Logged(log, issued, pending, now) && OneIssue(issued) && pending <= issued
    requires Origin(c) in pending && c.sentAt <= c.at == now
    ensures Logged(log + [c], issued, pending - {Origin(c)}, now)
  {
    forall i | 0 <= i < |log| ensures log[i].tx != c.tx {
      assert Origin(log[i]) != Origin(c);
    }
  }

  lemma StepLogged(net: Net, w: World, step: Step, now: int)
    requires Inv(w) && Legal(w, step, now)
    ensures var v := Next(net, w, step, now); Logged(v.log, v.issued, Pending(v.st), now)
  {
    var v := Next(net, w, step, now);
    StepPending(net, w, step, now);
    if v.log == w.log {
      LoggedKeep(w.log, Pending(v.st), Pending(w.st), w.issued, w.now, now);
    } else {
      var c := Confirmed(w.st, step.pkt, now)[0];
      assert v.log == w.log + [c];
      ConfirmTakes(net, w.st, step.pkt, now, step.pongSealed, step.draw);
      assert v.issued == w.issued;
      LogGrows(w.log, c, w.issued, Pending(w.st), now);
    }
  }

  // ---- best paths over one step ----

  lemma StillBacked(p: Peer, q: Peer, log: seq<Confirm>, more: seq<Confirm>)
    requires Backed(p, log) && q.id == p.id && q.key == p.key && (q.best == p.best || q.best.None?)
    ensures Backed(q, log + more)
  {
    if q.best.Path? {
      var i :| 0 <= i < |log| && Backs(log[i], p);
      assert (log + more)[i] == log[i] && Backs((log + more)[i], q);
    }
  }

  lemma PongedBacked(net: Net, st: State, pkt: Packet, now: int, log: seq<Confirm>)
    requires Sound(st) && pkt.sender in st.byKey && pkt.msg.PongMsg?
    requires Backed(st.peers[st.byKey[pkt.sender]], log)
    ensures Backed(Ponged(net, st.peers[st.byKey[pkt.sender]], pkt.msg.tx, pkt.from, now).0,
                   log + Confirmed(st, pkt, now))
  {
    var p := st.peers[st.byKey[pkt.sender]];
    var q := Ponged(net, p, pkt.msg.tx, pkt.from, now).0;
    PongedKeeps(net, p, pkt.msg.tx, pkt.from, now);
    if q.best == p.best {
      StillBacked(p, q, log, Confirmed(st, pkt, now));
    } else {
      assert Backs((log + Confirmed(st, pkt, now))[|log|], q);
    }
  }

  lemma StepBacked(net: Net, w: World, step: Step, now: int, id: NodeId)
    requires Inv(w) && Legal(w, step, now) && id in Next(net, w, step, now).st.peers
    ensures Backed(Next(net, w, step, now).st.peers[id], Next(net, w, step, now).log)
  {
    match step
    case Hear(ctrl, told) =>
      SetPeersKept(w.st, ctrl, told, now);
      var q := SetPeers(w.st, ctrl, told, now).peers[id];
      assert Kept(q, w.st);
      if q.best.Path? {
        StillBacked(w.st.peers[id], q, w.log, []);
      }
    case Hint(ids, addrs) =>
      StillBacked(w.st.peers[id], AddHints(w.st, ids, addrs).peers[id], w.log, []);
    case Gossip(g, addrs) =>
      StillBacked(w.st.peers[id], AddGossip(w.st, g, addrs).peers[id], w.log, []);
    case TickAll(draws) =>
      TickPeerKeeps(net, w.st.peers[id], now, draws[id]);
      StillBacked(w.st.peers[id], TickPeer(net, w.st.peers[id], now, draws[id]).0, w.log, []);
    case Receive(pkt, pongSealed, draw) =>
      ReceiveBacked(net, w, pkt, now, pongSealed, draw, id);
  }

  lemma ReceiveBacked(net: Net, w: World, pkt: Packet, now: int, pongSealed: bool, draw: Draw, id: NodeId)
    requires Inv(w) && id in w.st.peers
    ensures Backed(Handle(net, w.st, pkt, now, pongSealed, draw).0.peers[id], w.log + Confirmed(w.st, pkt, now))
  {
    var p, log := w.st.peers[id], Confirmed(w.st, pkt, now);
    if pkt.sender in w.st.byKey && w.st.byKey[pkt.sender] == id {
      if pkt.msg.PongMsg? {
        PongedBacked(net, w.st, pkt, now, w.log);
      } else {
        PingedKeeps(p, pkt.msg.tx, pkt.from, now, pongSealed, draw);
        StillBacked(p, Pinged(p, pkt.msg.tx, pkt.from, now, pongSealed, draw).0, w.log, log);
      }
    } else {
      StillBacked(p, p, w.log, log);
    }
  }

  /** Every step keeps the invariant. */
  lemma StepKeeps(net: Net, w: World, step: Step, now: int)
    requires Inv(w) && Legal(w, step, now)
    ensures Inv(Next(net, w, step, now))
  {
    var v := Next(net, w, step, now);
    StepSound(net, w, step, now);
    StepPending(net, w, step, now);
    IssuedKeep(Pending(v.st), Pending(w.st), w.issued, now);
    StepLogged(net, w, step, now);
    forall id | id in v.st.peers ensures Backed(v.st.peers[id], v.log) {
      StepBacked(net, w, step, now, id);
    }
    forall x | x in v.issued ensures x.at <= now {
      if x !in w.issued {
        assert x in Pending(v.st);
      }
    }
  }

  // ---- runs ----

  datatype Event = Event(step: Step, now: int, net: Net)

  ghost predicate Runs(w: World, es: seq<Event>, v: World)
    decreases |es|
  {
    if es == [] then v == w
    else
      KeysLead(w.st) && Legal(w, es[0].step, es[0].now)
      && Runs(Next(es[0].net, w, es[0].step, es[0].now), es[1..], v)
  }

  lemma {:induction false} Reachable(w: World, es: seq<Event>, v: World)
    requires Inv(w) && Runs(w, es, v)
    ensures Inv(v)
    decreases |es|
  {
    if es != [] {
      StepKeeps(es[0].net, w, es[0].step, es[0].now);
      Reachable(Next(es[0].net, w, es[0].step, es[0].now), es[1..], v);
    }
  }

  function Empty(now: int): World
  {
    World(START, {}, [], now)
  }

  lemma StartInv(now: int)
    ensures Inv(Empty(now))
  {
  }

  /** In every reachable state the known peers are exactly those some controller
      mentions, every key leads to a known peer that holds it, and what is kept
      of a peer stays within its limits. */
  lemma AlwaysSound(start: int, es: seq<Event>, w: World)
    requires Runs(Empty(start), es, w)
    ensures w.st.peers.Keys == Mentioned(w.st.byCtrl)
    ensures forall k :: k in w.st.byKey ==> w.st.byKey[k] in w.st.peers && w.st.peers[w.st.byKey[k]].key == k
    ensures forall id :: id in w.st.peers ==>
      var p := w.st.peers[id]; |p.sent| <= 64 && |p.learned| <= 12 && |p.hints| <= 12 && |p.gossip| <= 12
  {
    StartInv(start);
    Reachable(Empty(start), es, w);
  }

  /** In every reachable state a packet for a peer goes to an address only if,
      less than a minute ago, whoever holds the peer's key answered a ping sent
      to that very address. */
  lemma PathsAreConfirmed(start: int, es: seq<Event>, w: World, id: NodeId, now: int)
    requires Runs(Empty(start), es, w) && Endpoint(w.st, id, now) != []
    ensures exists i :: (0 <= i < |w.log|
      && w.log[i].key == w.st.peers[id].key && w.log[i].from == Endpoint(w.st, id, now)[0]
      && now - w.log[i].at < STALE && Origin(w.log[i]) in w.issued && w.log[i].sentAt <= w.log[i].at)
  {
    StartInv(start);
    Reachable(Empty(start), es, w);
    var i :| 0 <= i < |w.log| && Backs(w.log[i], w.st.peers[id]);
  }

  /** Each ping confirms at most once. */
  lemma OneConfirmationEach(start: int, es: seq<Event>, w: World, i: nat, j: nat)
    requires Runs(Empty(start), es, w) && i < j < |w.log|
    ensures Origin(w.log[i]) != Origin(w.log[j]) && w.log[i].tx != w.log[j].tx
  {
    StartInv(start);
    Reachable(Empty(start), es, w);
  }

  // ---- what is sent ----

  lemma {:induction false} PingAllTargets(key: Key, sent: map<Tx, Ping>, targets: seq<Addr>, draws: seq<Draw>, now: int, o: Out)
    requires |draws| >= |targets| && o in PingAll(key, sent, targets, draws, now).1
    ensures o.key == key && o.msg.PingMsg? && o.to in targets
  {
    if targets != [] {
      var n := |targets| - 1;
      var r := PingAll(key, sent, targets[..n], draws, now);
      assert targets[n] in targets;
      if o in r.1 {
        PingAllTargets(key, sent, targets[..n], draws, now, o);
      }
    }
  }

  /** Only known peers get answers, and only where they wrote from: a packet of a
      stranger changes nothing and makes nothing be sent. */
  lemma NoReflection(net: Net, st: State, pkt: Packet, now: int, pongSealed: bool, draw: Draw)
    requires Sound(st)
    ensures var r := Handle(net, st, pkt, now, pongSealed, draw);
      (forall o :: o in r.1 ==> pkt.sender in st.byKey && o.key == pkt.sender && o.to == pkt.from
                                && (o.msg.PongMsg? ==> pkt.msg == PingMsg(o.msg.tx)))
      && (pkt.sender !in st.byKey ==> r == (st, [], false))
  {
    if pkt.sender in st.byKey && pkt.msg.PingMsg? {
      var p := st.peers[st.byKey[pkt.sender]];
      var pings := PingAll(p.key, p.sent, [pkt.from], [draw], now).1;
      forall o | o in pings ensures o.key == p.key && o.msg.PingMsg? && o.to == pkt.from {
        PingAllTargets(p.key, p.sent, [pkt.from], [draw], now, o);
      }
    }
  }

  /** A tick pings a peer only at addresses known of it, at most every two seconds;
      while a direct path is live only that path, at most every twenty. */
  lemma TickPings(net: Net, p: Peer, now: int, draws: seq<Draw>, o: Out)
    requires |draws| >= |p.candidates| + |p.learned| + |p.hints| + |p.gossip| + 1
    requires o in TickPeer(net, p, now, draws).1
    ensures o.key == p.key && o.msg.PingMsg? && (p.lastPing.Never? || now - p.lastPing.time >= SEARCH)
    ensures if Live(p.best, now) && !net.relay(p.best.addr)
            then o.to == p.best.addr && (p.lastPing.Never? || now - p.lastPing.time >= RECHECK)
            else o.to in p.candidates + p.learned + p.hints + p.gossip
  {
    var q := p.(sent := Expire(p.sent, now), best := Dropped(p.best, now));
    PingAllTargets(q.key, q.sent, Targets(net, q), draws, now, o);
  }

  // ---- keys ----

  /** Each key belongs to one node. */
  predicate TellsOwners(step: Step, owner: Key -> NodeId)
  {
    step.Hear? ==> forall t :: t in step.told ==> Owns(owner, t)
  }

  lemma StepFinds(net: Net, w: World, step: Step, now: int, owner: Key -> NodeId)
    requires Inv(w) && Legal(w, step, now) && TellsOwners(step, owner)
    requires Owned(w.st, owner) && AllFound(w.st)
    ensures Owned(Next(net, w, step, now).st, owner) && AllFound(Next(net, w, step, now).st)
  {
    match step
    case Hear(ctrl, told) => SetPeersFinds(w.st, ctrl, told, now, owner);
    case Hint(_, _) =>
    case Gossip(_, _) =>
    case TickAll(draws) => TickKeeps(net, w.st, now, draws);
    case Receive(pkt, pongSealed, draw) => HandleKeeps(net, w.st, pkt, now, pongSealed, draw);
  }

  lemma {:induction false} RunsFind(w: World, es: seq<Event>, v: World, owner: Key -> NodeId)
    requires Inv(w) && Runs(w, es, v) && Owned(w.st, owner) && AllFound(w.st)
    requires forall e :: e in es ==> TellsOwners(e.step, owner)
    ensures AllFound(v.st)
    decreases |es|
  {
    if es != [] {
      var e := es[0];
      assert e in es;
      StepKeeps(e.net, w, e.step, e.now);
      StepFinds(e.net, w, e.step, e.now, owner);
      RunsFind(Next(e.net, w, e.step, e.now), es[1..], v, owner);
    }
  }

  /** With keys that belong to one node each every known peer is found by its
      key. */
  lemma AlwaysFound(start: int, es: seq<Event>, w: World, owner: Key -> NodeId)
    requires Runs(Empty(start), es, w) && forall e :: e in es ==> TellsOwners(e.step, owner)
    ensures AllFound(w.st)
  {
    StartInv(start);
    RunsFind(Empty(start), es, w, owner);
  }

  predicate TellsOnly(step: Step, tells: set<Told>)
  {
    step.Hear? ==> forall t :: t in step.told ==> t in tells
  }

  /** No two nodes are told to hold one key; those that are skipped do not count. */
  predicate NoSharedKeys(tells: set<Told>)
  {
    forall a, b :: a in tells && b in tells && !Skipped(a) && !Skipped(b) && a.key == b.key ==> a.id == b.id
  }

  ghost predicate AlwaysAllFound(start: int, tells: set<Told>)
  {
    forall es: seq<Event>, w: World ::
      Runs(Empty(start), es, w) && (forall e: Event :: e in es ==> TellsOnly(e.step, tells)) ==> AllFound(w.st)
  }

  ghost function OwnerOf(tells: set<Told>, k: Key): NodeId
  {
    if exists t :: t in tells && !Skipped(t) && t.key == k
    then (var t :| t in tells && !Skipped(t) && t.key == k; t.id)
    else 0
  }

  lemma HearTwo(st: State, a: Told, b: Told, now: int)
    requires !Skipped(a) && !Skipped(b)
    ensures HearAll(st, [a], now) == DiscoState.Hear(st, a, now) && Ids([a]) == [a.id]
    ensures HearAll(st, [a, b], now) == DiscoState.Hear(DiscoState.Hear(st, a, now), b, now)
    ensures Ids([a, b]) == [a.id, b.id]
  {
    assert [a, b][..1] == [a] && [a][..0] == [];
  }

  /** Two nodes told to hold one key: the first is known, and its key leads to the
      second. */
  lemma SharedKeyMisleads(ctrl: Ctrl, a: Told, b: Told, now: int)
    requires a.id != b.id && a.key == b.key && !Skipped(a) && !Skipped(b)
    ensures var both := SetPeers(START, ctrl, [a, b], now);
      both.peers.Keys == {a.id, b.id} && both.peers[a.id].key == a.key == both.peers[b.id].key
      && both.byKey == map[a.key := b.id] && both.byCtrl.Keys == {ctrl}
  {
    HearTwo(START, a, b, now);
    var byCtrl := START.byCtrl[ctrl := [a.id, b.id]];
    assert a.id in byCtrl[ctrl] && b.id in byCtrl[ctrl];
    assert a.id in Mentioned(byCtrl) && b.id in Mentioned(byCtrl);
    var both := SetPeers(START, ctrl, [a, b], now);
    assert both.byKey == map[a.key := b.id];
  }

  /** And when the second is forgotten, the first is not found at all. */
  lemma SharedKeyIsLost(ctrl: Ctrl, a: Told, b: Told, now: int, later: int)
    requires a.id != b.id && a.key == b.key && !Skipped(a) && !Skipped(b)
    ensures var one := SetPeers(SetPeers(START, ctrl, [a, b], now), ctrl, [a], later);
      a.id in one.peers && one.peers[a.id].key == a.key && a.key !in one.byKey
  {
    SharedKeyMisleads(ctrl, a, b, now);
    var both := SetPeers(START, ctrl, [a, b], now);
    HearTwo(both, a, a, later);
    var again := HearAll(both, [a], later);
    var byCtrl := again.byCtrl[ctrl := [a.id]];
    assert a.id in byCtrl[ctrl] && a.id in Mentioned(byCtrl) && b.id !in Mentioned(byCtrl);
    assert b.id in again.peers && again.peers[b.id].key == a.key;
  }

  /** Every run over a set of tells keeps every known peer found by its key exactly
      if no two nodes of the set are told to hold one key. */
  lemma KeysDecide(start: int, tells: set<Told>)
    requires forall t :: t in tells ==> Proper(t)
    ensures AlwaysAllFound(start, tells) <==> NoSharedKeys(tells)
  {
    if NoSharedKeys(tells) {
      var owner := (k: Key) => OwnerOf(tells, k);
      forall es: seq<Event>, w: World | Runs(Empty(start), es, w) && forall e: Event :: e in es ==> TellsOnly(e.step, tells)
        ensures AllFound(w.st)
      {
        forall e | e in es ensures TellsOwners(e.step, owner) {
          assert TellsOnly(e.step, tells);
        }
        AlwaysFound(start, es, w, owner);
      }
    } else {
      var a, b :| a in tells && b in tells && !Skipped(a) && !Skipped(b) && a.key == b.key && a.id != b.id;
      var e := Event(Hear(0, [a, b]), start, Net(_ => false, _ => false));
      SharedKeyMisleads(0, a, b, start);
      StartInv(start);
      var w := Next(e.net, Empty(start), e.step, start);
      OneStepRun(Empty(start), e, w);
      assert !AllFound(w.st) by {
        assert w.st.byKey[w.st.peers[a.id].key] == b.id;
      }
      assert forall f :: f in [e] ==> TellsOnly(f.step, tells);
    }
  }

  lemma OneStepRun(w: World, e: Event, v: World)
    requires KeysLead(w.st) && Legal(w, e.step, e.now) && v == Next(e.net, w, e.step, e.now)
    ensures Runs(w, [e], v)
  {
    assert Runs(v, [e][1..], v);
  }
}
