/** internal/node/disco.go: what the path finder knows, as a value, and what each
    critical section makes of it. */
module DiscoState {
  import opened DiscoPaths

  const RECHECK := 20 * Common.SECOND
  const SEARCH := 2 * Common.SECOND
  const PING_TTL := 5 * Common.SECOND
  const EAGER_DIRECT := 60 * Common.SECOND
  const MAX_CANDIDATES := 12
  const MAX_PENDING := 64

  type NodeId = nat
  type Key = nat
  type Ctrl = nat
  type Tx = nat

  const ZERO_KEY: Key := 0

  datatype Ping = Ping(to: Addr, at: int)

  /** A moment, or the zero time before all of them. */
  datatype Moment = Never | At(time: int)

  datatype Peer = Peer(id: NodeId, key: Key, candidates: seq<Addr>, learned: seq<Addr>, hints: seq<Addr>,
                       gossip: seq<Addr>, best: Path, lastPing: Moment, since: int, sent: map<Tx, Ping>)

  datatype State = State(peers: map<NodeId, Peer>, byKey: map<Key, NodeId>, byCtrl: map<Ctrl, seq<NodeId>>)

  /** What a controller says of a peer: its usable addresses in the order they are
      tried, and its relay endpoint if it shares our relay. */
  datatype Told = Told(id: NodeId, key: Key, active: bool, addrs: seq<Addr>, relayed: seq<Addr>)

  datatype Msg = PingMsg(tx: Tx) | PongMsg(tx: Tx)

  datatype Out = Out(key: Key, msg: Msg, to: Addr)

  /** A transaction ID drawn, and whether the packet could be sealed. */
  datatype Draw = Draw(tx: Tx, sealed: bool)

  // ---- what the controllers say ----

  function Candidates(addrs: seq<Addr>): (r: seq<Addr>)
    ensures |r| <= MAX_CANDIDATES
    ensures forall i, j :: 0 <= i < j < |r| ==> r[i] != r[j]
    ensures forall a :: a in r ==> a in addrs
    ensures |r| < MAX_CANDIDATES ==> forall a :: a in addrs ==> a in r
  {
    if addrs == [] then []
    else
      var r, a := Candidates(addrs[..|addrs| - 1]), addrs[|addrs| - 1];
      if a in r || |r| >= MAX_CANDIDATES then r else r + [a]
  }

  /** The first twelve hints that are no candidates. */
  function Hints(addrs: seq<Addr>, candidates: seq<Addr>): (r: seq<Addr>)
    ensures |r| <= MAX_CANDIDATES
    ensures forall a :: a in r ==> a in addrs && a !in candidates
    ensures |r| < MAX_CANDIDATES ==> forall a :: a in addrs && a !in candidates ==> a in r
  {
    if addrs == [] then []
    else
      var r, a := Hints(addrs[..|addrs| - 1], candidates), addrs[|addrs| - 1];
      if |r| < MAX_CANDIDATES && a !in candidates then r + [a] else r
  }

  predicate Skipped(t: Told)
  {
    !t.active || t.key == ZERO_KEY
  }

  function NewPeer(id: NodeId, key: Key, now: int): Peer
  {
    Peer(id, key, [], [], [], [], None, Never, now, map[])
  }

  /** One peer of setPeers: a new key makes a new peer, which has no path. */
  function Hear(st: State, t: Told, now: int): State
  {
    if Skipped(t) then st
    else
      var candidates := Candidates(t.addrs) + t.relayed;
      if t.id in st.peers && st.peers[t.id].key == t.key then
        st.(peers := st.peers[t.id := st.peers[t.id].(candidates := candidates)])
      else
        var byKey := if t.id in st.peers then st.byKey - {st.peers[t.id].key} else st.byKey;
        st.(peers := st.peers[t.id := NewPeer(t.id, t.key, now).(candidates := candidates)],
            byKey := byKey[t.key := t.id])
  }

  function HearAll(st: State, told: seq<Told>, now: int): State
  {
    if told == [] then st else Hear(HearAll(st, told[..|told| - 1], now), told[|told| - 1], now)
  }

  function Ids(told: seq<Told>): seq<NodeId>
  {
    if told == [] then []
    else Ids(told[..|told| - 1]) + if Skipped(told[|told| - 1]) then [] else [told[|told| - 1].id]
  }

  function Mentioned(byCtrl: map<Ctrl, seq<NodeId>>): set<NodeId>
  {
    set c, id | c in byCtrl && id in byCtrl[c] :: id
  }

  /** Peers no controller mentions any more go, and their keys with them. */
  function Forget(st: State): State
  {
    var still := Mentioned(st.byCtrl);
    st.(peers := map id | id in st.peers && id in still :: st.peers[id],
        byKey := st.byKey - (set id | id in st.peers && id !in still :: st.peers[id].key))
  }

  /** setPeers; told is in the order the peers happen to be ranged over. */
  function SetPeers(st: State, ctrl: Ctrl, told: seq<Told>, now: int): State
  {
    var heard := HearAll(st, told, now);
    Forget(heard.(byCtrl := heard.byCtrl[ctrl := Ids(told)]))
  }

  /** addHints. */
  function AddHints(st: State, ids: seq<NodeId>, addrs: seq<Addr>): State
  {
    st.(peers := map id | id in st.peers ::
      if id in ids then st.peers[id].(hints := Hints(addrs, st.peers[id].candidates)) else st.peers[id])
  }

  /** addGossipHints. */
  function AddGossip(st: State, id: NodeId, addrs: seq<Addr>): State
  {
    if id !in st.peers then st
    else st.(peers := st.peers[id := st.peers[id].(gossip := Hints(addrs, st.peers[id].candidates))])
  }

  // ---- pings ----

  /** pingsLocked: a ping to each target while fewer than 64 are pending. */
  function PingAll(key: Key, sent: map<Tx, Ping>, targets: seq<Addr>, draws: seq<Draw>, now: int): (map<Tx, Ping>, seq<Out>)
    requires |draws| >= |targets|
  {
    if targets == [] then (sent, [])
    else
      var n := |targets| - 1;
      var r := PingAll(key, sent, targets[..n], draws, now);
      if |r.0| >= MAX_PENDING || !draws[n].sealed then r
      else (r.0[draws[n].tx := Ping(targets[n], now)], r.1 + [Out(key, PingMsg(draws[n].tx), targets[n])])
  }

  function Expire(sent: map<Tx, Ping>, now: int): map<Tx, Ping>
  {
    map tx | tx in sent && now - sent[tx].at <= PING_TTL :: sent[tx]
  }

  function Dropped(best: Path, now: int): Path
  {
    if best.Path? && now - best.at >= STALE then None else best
  }

  function Targets(net: Net, p: Peer): seq<Addr>
  {
    if p.best.Path? && !net.relay(p.best.addr) then [p.best.addr]
    else p.candidates + p.learned + p.hints + p.gossip
  }

  function Interval(net: Net, p: Peer, now: int): int
  {
    if p.best.None? then SEARCH
    else if net.relay(p.best.addr) && now - p.since < EAGER_DIRECT then SEARCH
    else RECHECK
  }

  predicate Due(m: Moment, now: int, interval: int)
  {
    m.Never? || now - m.time >= interval
  }

  /** tick for one peer. */
  function TickPeer(net: Net, p: Peer, now: int, draws: seq<Draw>): (Peer, seq<Out>)
    requires |draws| >= |p.candidates| + |p.learned| + |p.hints| + |p.gossip| + 1
  {
    var q := p.(sent := Expire(p.sent, now), best := Dropped(p.best, now));
    if !Due(q.lastPing, now, Interval(net, q, now)) then (q, [])
    else
      var r := PingAll(q.key, q.sent, Targets(net, q), draws, now);
      (q.(lastPing := At(now), sent := r.0), r.1)
  }

  predicate Enough(st: State, draws: map<NodeId, seq<Draw>>)
  {
    forall id :: id in st.peers ==>
      var p := st.peers[id];
      id in draws && |draws[id]| >= |p.candidates| + |p.learned| + |p.hints| + |p.gossip| + 1
  }

  function Tick(net: Net, st: State, now: int, draws: map<NodeId, seq<Draw>>): State
    requires Enough(st, draws)
  {
    st.(peers := map id | id in st.peers :: TickPeer(net, st.peers[id], now, draws[id]).0)
  }

  // ---- packets ----

  /** handle, for a ping from the peer's key. */
  function Pinged(p: Peer, tx: Tx, from: Addr, now: int, pongSealed: bool, draw: Draw): (Peer, seq<Out>)
  {
    var pong := if pongSealed then [Out(p.key, PongMsg(tx), from)] else [];
    var q := if from !in p.candidates && from !in p.learned && |p.learned| < MAX_CANDIDATES
             then p.(learned := p.learned + [from]) else p;
    if q.best.None? then
      var r := PingAll(q.key, q.sent, [from], [draw], now);
      (q.(sent := r.0), pong + r.1)
    else (q, pong)
  }

  predicate Confirms(p: Peer, tx: Tx, from: Addr)
  {
    tx in p.sent && p.sent[tx].to == from
  }

  /** handle, for a pong from the peer's key; whether the path changed. */
  function Ponged(net: Net, p: Peer, tx: Tx, from: Addr, now: int): (Peer, bool)
  {
    if !Confirms(p, tx, from) then (p, false)
    else
      var best := AfterPong(net, p.best, from, now - p.sent[tx].at, now);
      (p.(sent := p.sent - {tx}, best := best),
       Better(net, Path(from, now - p.sent[tx].at, now), p.best, now) && (p.best.None? || p.best.addr != from))
  }

  datatype Packet = Packet(sender: Key, msg: Msg, from: Addr)

  function Handle(net: Net, st: State, pkt: Packet, now: int, pongSealed: bool, draw: Draw): (State, seq<Out>, bool)
    requires pkt.sender in st.byKey ==> st.byKey[pkt.sender] in st.peers
  {
    if pkt.sender !in st.byKey then (st, [], false)
    else
      var id := st.byKey[pkt.sender];
      match pkt.msg
      case PingMsg(tx) =>
        var r := Pinged(st.peers[id], tx, pkt.from, now, pongSealed, draw);
        (st.(peers := st.peers[id := r.0]), r.1, false)
      case PongMsg(tx) =>
        var r := Ponged(net, st.peers[id], tx, pkt.from, now);
        (st.(peers := st.peers[id := r.0]), [], r.1)
  }

  /** endpoint: the address packets to a peer go to, if a path is confirmed. */
  function Endpoint(st: State, id: NodeId, now: int): seq<Addr>
  {
    if id in st.peers && Live(st.peers[id].best, now) then [st.peers[id].best.addr] else []
  }
}
