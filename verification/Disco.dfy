/** internal/node/disco.go: the path finder, one method per critical section. */
module Disco {
  import opened DiscoPaths
  import opened DiscoState

  class PeerObject {
    const id: NodeId
    const key: Key
    const since: int
    var candidates: seq<Addr>
    var learned: seq<Addr>
    var hints: seq<Addr>
    var gossip: seq<Addr>
    var best: Path
    var lastPing: Moment
    var sent: map<Tx, Ping>

    ghost function View(): Peer
      reads this
    {
      Peer(id, key, candidates, learned, hints, gossip, best, lastPing, since, sent)
    }

    constructor (id: NodeId, key: Key, now: int)
      ensures View() == NewPeer(id, key, now)
      ensures this.id == id && this.key == key
    {
      this.id, this.key, since := id, key, now;
      candidates, learned, hints, gossip := [], [], [], [];
      best, lastPing, sent := None, Never, map[];
    }

    /** pingsLocked. */
    method Pings(targets: seq<Addr>, draws: seq<Draw>, now: int) returns (out: seq<Out>)
      requires |draws| >= |targets|
      modifies this`sent
      ensures (sent, out) == PingAll(key, old(sent), targets, draws, now)
    {
      out := [];
      for i := 0 to |targets|
        invariant (sent, out) == PingAll(key, old(sent), targets[..i], draws, now)
      {
        assert targets[..i + 1][..i] == targets[..i];
        if |sent| >= MAX_PENDING {
          PingAllFull(key, old(sent), targets, draws, now, i);
          break;
        }
        if !draws[i].sealed {
          continue;
        }
        sent := sent[draws[i].tx := Ping(targets[i], now)];
        out := out + [Out(key, PingMsg(draws[i].tx), targets[i])];
      }
      assert targets[..|targets|] == targets;
    }

    /** What tick does for one peer. */
    method Tick(net: Net, now: int, draws: seq<Draw>) returns (out: seq<Out>, lost: bool)
      requires |draws| >= |candidates| + |learned| + |hints| + |gossip| + 1
      modifies this
      ensures (View(), out) == TickPeer(net, old(View()), now, draws)
      ensures lost <==> old(best).Path? && now - old(best).at >= STALE
    {
      sent := map tx | tx in sent && now - sent[tx].at <= PING_TTL :: sent[tx];
      lost := false;
      if best.Path? && now - best.at >= STALE {
        best := None;
        lost := true;
      }
      var interval := SEARCH;
      var targets := candidates + learned + hints + gossip;
      if best.Path? && net.relay(best.addr) {
        if now - since >= EAGER_DIRECT {
          interval := RECHECK;
        }
      } else if best.Path? {
        interval := RECHECK;
        targets := [best.addr];
      }
      if lastPing.At? && now - lastPing.time < interval {
        return [], lost;
      }
      lastPing := At(now);
      out := Pings(targets, draws, now);
    }

    /** handle, for a ping. */
    method OnPing(tx: Tx, from: Addr, now: int, pongSealed: bool, draw: Draw) returns (out: seq<Out>)
      modifies this
      ensures (View(), out) == Pinged(old(View()), tx, from, now, pongSealed, draw)
    {
      out := [];
      if pongSealed {
        out := [Out(key, PongMsg(tx), from)];
      }
      if from !in candidates && from !in learned && |learned| < MAX_CANDIDATES {
        learned := learned + [from];
      }
      if best.None? {
        var pings := Pings([from], [draw], now);
        out := out + pings;
      }
    }

    /** handle, for a pong. */
    method OnPong(net: Net, tx: Tx, from: Addr, now: int) returns (changed: bool)
      modifies this
      ensures (View(), changed) == Ponged(net, old(View()), tx, from, now)
    {
      changed := false;
      if tx !in sent || sent[tx].to != from {
        return;
      }
      var rtt := now - sent[tx].at;
      sent := sent - {tx};
      var path := Path(from, rtt, now);
      if Better(net, path, best, now) {
        changed := best.None? || path.addr != best.addr;
        best := path;
      } else if path.addr == best.addr {
        best := best.(at := now, rtt := rtt);
      }
    }
  }

  /** Once 64 pings are pending no more are sent. */
  lemma {:induction false} PingAllFull(key: Key, sent: map<Tx, Ping>, targets: seq<Addr>, draws: seq<Draw>, now: int, i: nat)
    requires |draws| >= |targets| && i <= |targets|
    requires |PingAll(key, sent, targets[..i], draws, now).0| >= MAX_PENDING
    ensures PingAll(key, sent, targets, draws, now) == PingAll(key, sent, targets[..i], draws, now)
  {
    if i < |targets| {
      var n := |targets| - 1;
      assert targets[..n][..i] == targets[..i];
      PingAllFull(key, sent, targets[..n], draws, now, i);
    } else {
      assert targets[..i] == targets;
    }
  }

  /** candidates: distinct addresses in order, at most twelve. */
  method CollectCandidates(addrs: seq<Addr>) returns (out: seq<Addr>)
    ensures out == Candidates(addrs)
  {
    out := [];
    for i := 0 to |addrs|
      invariant out == Candidates(addrs[..i])
    {
      assert addrs[..i + 1][..i] == addrs[..i];
      if addrs[i] !in out && |out| < MAX_CANDIDATES {
        out := out + [addrs[i]];
      }
    }
    assert addrs[..|addrs|] == addrs;
  }

  method CollectHints(addrs: seq<Addr>, candidates: seq<Addr>) returns (out: seq<Addr>)
    ensures out == Hints(addrs, candidates)
  {
    out := [];
    for i := 0 to |addrs|
      invariant out == Hints(addrs[..i], candidates)
    {
      assert addrs[..i + 1][..i] == addrs[..i];
      if |out| < MAX_CANDIDATES && addrs[i] !in candidates {
        out := out + [addrs[i]];
      }
    }
    assert addrs[..|addrs|] == addrs;
  }

  class Manager {
    var peers: map<NodeId, PeerObject>
    var byKey: map<Key, PeerObject>
    var byCtrl: map<Ctrl, seq<NodeId>>

    /** What both tables hold is one object, filed under what it says of itself. */
    ghost predicate Valid()
      reads this
    {
      (forall id :: id in peers ==> peers[id].id == id)
      && forall k :: k in byKey ==> byKey[k].key == k && byKey[k].id in peers && peers[byKey[k].id] == byKey[k]
    }

    ghost function Abstract(): State
      reads this, peers.Values
    {
      State(map id | id in peers :: peers[id].View(), map k | k in byKey :: byKey[k].id, byCtrl)
    }

    constructor ()
      ensures Valid() && Abstract() == State(map[], map[], map[])
    {
      peers, byKey, byCtrl := map[], map[], map[];
    }

    /** A new peer, or a known one with a new key. */
    method Enter(id: NodeId, key: Key, now: int) returns (dp: PeerObject)
      requires Valid() && (id in peers ==> peers[id].key != key)
      modifies this`peers, this`byKey
      ensures Valid() && fresh(dp) && dp.View() == NewPeer(id, key, now)
      ensures peers == old(peers)[id := dp]
      ensures byKey == (if id in old(peers) then old(byKey) - {old(peers)[id].key} else old(byKey))[key := dp]
    {
      if id in peers {
        byKey := byKey - {peers[id].key};
      }
      dp := new PeerObject(id, key, now);
      peers := peers[id := dp];
      byKey := byKey[key := dp];
    }

    /** A change to one known peer, seen from outside. */
    twostate lemma OneChanged(id: NodeId)
      requires old(Valid()) && Valid() && peers == old(peers) && byKey == old(byKey) && byCtrl == old(byCtrl)
      requires id in peers && forall p :: p in peers.Values && p != peers[id] ==> p.View() == old(p.View())
      ensures Abstract() == old(Abstract()).(peers := old(Abstract()).peers[id := peers[id].View()])
    {
      assert Abstract().peers == old(Abstract()).peers[id := peers[id].View()];
    }

    /** A peer that entered, seen from outside. */
    twostate lemma OneEntered(id: NodeId, new dp: PeerObject)
      requires old(Valid()) && Valid() && byCtrl == old(byCtrl) && peers == old(peers)[id := dp]
      requires byKey == (if id in old(peers) then old(byKey) - {old(peers)[id].key} else old(byKey))[dp.key := dp]
      requires dp.id == id && fresh(dp) && forall p :: p in old(peers.Values) ==> p.View() == old(p.View())
      ensures var was := old(Abstract());
        Abstract().peers == was.peers[id := dp.View()]
        && Abstract().byKey == (if id in was.peers then was.byKey - {was.peers[id].key} else was.byKey)[dp.key := id]
        && Abstract().byCtrl == was.byCtrl
    {
      EnteredKeys(id, dp);
      EnteredPeers(id, dp);
    }

    twostate lemma EnteredPeers(id: NodeId, new dp: PeerObject)
      requires old(Valid()) && Valid() && peers == old(peers)[id := dp]
      requires forall p :: p in old(peers.Values) ==> p.View() == old(p.View())
      ensures Abstract().peers == old(Abstract()).peers[id := dp.View()]
    {
      var was, after := old(Abstract()).peers, Abstract().peers;
      assert after.Keys == was.Keys + {id};
      forall k | k in was && k != id ensures after[k] == was[k] {
        assert old(peers)[k] in old(peers.Values);
      }
    }

    twostate lemma EnteredKeys(id: NodeId, new dp: PeerObject)
      requires old(Valid()) && dp.id == id
      requires byKey == (if id in old(peers) then old(byKey) - {old(peers)[id].key} else old(byKey))[dp.key := dp]
      ensures Abstract().byKey
           == (if id in old(peers) then old(Abstract()).byKey - {old(peers)[id].key} else old(Abstract()).byKey)[dp.key := id]
    {
    }

    /** The loop body of setPeers. */
    method HearOne(t: Told, now: int)
      requires Valid()
      modifies this`peers, this`byKey, peers.Values
      ensures Valid() && Abstract() == Hear(old(Abstract()), t, now)
      ensures forall p :: p in peers.Values ==> p in old(peers.Values) || fresh(p)
    {
      if Skipped(t) {
        return;
      }
      var candidates := CollectCandidates(t.addrs);
      if t.id in peers && peers[t.id].key == t.key {
        peers[t.id].candidates := candidates + t.relayed;
        OneChanged(t.id);
      } else {
        var dp := Enter(t.id, t.key, now);
        dp.candidates := candidates + t.relayed;
        OneEntered(t.id, dp);
      }
    }

    /** The last loop of setPeers; deleting while ranging over the peers. */
    method ForgetAllBut(still: set<NodeId>)
      requires Valid() && still == Mentioned(byCtrl)
      modifies this`peers, this`byKey
      ensures Valid() && Abstract() == Forget(old(Abstract()))
      ensures peers.Values <= old(peers.Values)
    {
      var left := peers.Keys;
      RemainingStart(peers, still);
      while left != {}
        invariant left <= old(peers).Keys
        invariant peers == Remaining(old(peers), still, left)
        invariant byKey == old(byKey) - GoneKeys(old(peers), still, left)
        decreases |left|
      {
        var id :| id in left;
        ghost var before := left;
        left := left - {id};
        assert left + {id} == before;
        RemainingStep(old(peers), old(byKey), still, left, id);
        if id !in still {
          byKey := byKey - {peers[id].key};
          peers := peers - {id};
        }
      }
      ForgottenKeepValid(still);
      Forgotten(still);
    }

    twostate lemma ForgottenKeepValid(still: set<NodeId>)
      requires old(Valid()) && byKey == old(byKey) - GoneKeys(old(peers), still, {})
      requires peers == Remaining(old(peers), still, {})
      ensures Valid() && peers.Values <= old(peers.Values)
    {
      forall k | k in byKey ensures byKey[k].id in still {
        var p := old(byKey)[k];
        assert p.id in old(peers) && old(peers)[p.id].key == k;
        assert k !in GoneKeys(old(peers), still, {});
      }
    }

    twostate lemma Forgotten(still: set<NodeId>)
      requires still == Mentioned(byCtrl) && byCtrl == old(byCtrl)
      requires byKey == old(byKey) - GoneKeys(old(peers), still, {})
      requires peers == Remaining(old(peers), still, {})
      requires forall p :: p in old(peers.Values) ==> p.View() == old(p.View())
      ensures Abstract() == Forget(old(Abstract()))
    {
      var was, left := old(Abstract()), Abstract();
      GoneAre(old(peers), was.peers, still);
      assert left.byKey == was.byKey - GoneKeys(old(peers), still, {});
      ForgottenPeers(still);
    }

    twostate lemma ForgottenPeers(still: set<NodeId>)
      requires peers == Remaining(old(peers), still, {})
      requires forall p :: p in old(peers.Values) ==> p.View() == old(p.View())
      ensures Abstract().peers == map id | id in old(Abstract()).peers && id in still :: old(Abstract()).peers[id]
    {
      var was, left := old(Abstract()).peers, Abstract().peers;
      assert forall id :: id in old(peers) ==> old(peers)[id] in old(peers.Values);
      assert forall id :: id in left <==> id in was && id in still;
    }

    /** The first loop of setPeers. */
    method HearEach(told: seq<Told>, now: int) returns (ids: seq<NodeId>)
      requires Valid()
      modifies this`peers, this`byKey, peers.Values
      ensures Valid() && ids == Ids(told) && Abstract() == HearAll(old(Abstract()), told, now)
      ensures forall p :: p in peers.Values ==> p in old(peers.Values) || fresh(p)
    {
      ids := [];
      for i := 0 to |told|
        invariant Valid() && ids == Ids(told[..i]) && Abstract() == HearAll(old(Abstract()), told[..i], now)
        invariant forall p :: p in peers.Values ==> p in old(peers.Values) || fresh(p)
      {
        assert told[..i + 1][..i] == told[..i];
        HearOne(told[i], now);
        if !Skipped(told[i]) {
          ids := ids + [told[i].id];
        }
      }
      assert told[..|told|] == told;
    }

    /** What a controller told us about. */
    method Listed(ctrl: Ctrl, ids: seq<NodeId>)
      requires Valid()
      modifies this`byCtrl
      ensures Valid() && byCtrl == old(byCtrl)[ctrl := ids]
      ensures Abstract() == old(Abstract()).(byCtrl := byCtrl)
    {
      byCtrl := byCtrl[ctrl := ids];
    }

    /** setPeers; told in the order the peers happen to be ranged over. */
    method SetPeers(ctrl: Ctrl, told: seq<Told>, now: int)
      requires Valid()
      modifies this, peers.Values
      ensures Valid() && Abstract() == DiscoState.SetPeers(old(Abstract()), ctrl, told, now)
      ensures forall p :: p in peers.Values ==> p in old(peers.Values) || fresh(p)
    {
      var ids := HearEach(told, now);
      Listed(ctrl, ids);
      var still := Mentioned(byCtrl);
      ForgetAllBut(still);
    }

    /** addHints. */
    method AddHints(ids: seq<NodeId>, addrs: seq<Addr>)
      requires Valid()
      modifies peers.Values
      ensures Valid() && Abstract() == DiscoState.AddHints(old(Abstract()), ids, addrs)
    {
      for i := 0 to |ids|
        invariant Abstract() == DiscoState.AddHints(old(Abstract()), ids[..i], addrs)
      {
        HintOne(ids[i], addrs);
        HintedMore(old(Abstract()), ids, i, addrs);
      }
      assert ids[..|ids|] == ids;
    }

    method HintOne(id: NodeId, addrs: seq<Addr>)
      requires Valid()
      modifies peers.Values
      ensures Abstract() == DiscoState.AddHints(old(Abstract()), [id], addrs)
    {
      if id in peers {
        var hints := CollectHints(addrs, peers[id].candidates);
        peers[id].hints := hints;
        OneChanged(id);
      }
      assert Abstract().peers == DiscoState.AddHints(old(Abstract()), [id], addrs).peers;
    }

    /** addGossipHints. */
    method AddGossip(id: NodeId, addrs: seq<Addr>)
      requires Valid()
      modifies peers.Values
      ensures Valid() && Abstract() == DiscoState.AddGossip(old(Abstract()), id, addrs)
    {
      if id in peers {
        var gossip := CollectHints(addrs, peers[id].candidates);
        peers[id].gossip := gossip;
        OneChanged(id);
      }
    }

    /** handle, once the packet is opened and is no join. */
    method Handle(net: Net, pkt: Packet, now: int, pongSealed: bool, draw: Draw) returns (out: seq<Out>, changed: bool)
      requires Valid()
      modifies peers.Values
      ensures Valid() && (Abstract(), out, changed) == DiscoState.Handle(net, old(Abstract()), pkt, now, pongSealed, draw)
    {
      out, changed := [], false;
      if pkt.sender !in byKey {
        return;
      }
      var dp := byKey[pkt.sender];
      assert peers[dp.id] == dp;
      match pkt.msg
      case PingMsg(tx) =>
        out := dp.OnPing(tx, pkt.from, now, pongSealed, draw);
        OneChanged(dp.id);
      case PongMsg(tx) =>
        changed := dp.OnPong(net, tx, pkt.from, now);
        OneChanged(dp.id);
    }

    /** endpoint. */
    method EndpointOf(id: NodeId, now: int) returns (addr: seq<Addr>)
      requires Valid()
      ensures addr == Endpoint(Abstract(), id, now)
    {
      if id in peers && peers[id].best.Path? && now - peers[id].best.at < STALE {
        return [peers[id].best.addr];
      }
      return [];
    }

    /** tick, for all peers in whatever order ranging over them gives; draws says
        which numbers are drawn for each. */
    method Tick(net: Net, now: int, draws: map<NodeId, seq<Draw>>) returns (out: seq<Out>, lost: bool, order: seq<NodeId>)
      requires Valid() && Enough(Abstract(), draws)
      modifies peers.Values
      ensures Valid() && Abstract() == DiscoState.Tick(net, old(Abstract()), now, draws)
      ensures Common.Enumerates(order, peers.Keys) && Sent(net, old(Abstract()), now, draws, order, out, lost)
    {
      ghost var st := Abstract();
      order := Range(peers.Keys);
      out, lost := TickEach(net, now, draws, order);
      AllTicked(net, st, now, draws, order);
    }

    method TickEach(net: Net, now: int, draws: map<NodeId, seq<Draw>>, order: seq<NodeId>) returns (out: seq<Out>, lost: bool)
      requires Valid() && Enough(Abstract(), draws) && Common.Enumerates(order, peers.Keys)
      modifies peers.Values
      ensures Valid() && Progress(net, old(Abstract()), Abstract(), now, draws, order, out, lost)
    {
      ghost var st := Abstract();
      out, lost := [], false;
      NoneTicked(net, st, now, draws);
      for i := 0 to |order|
        invariant Progress(net, st, Abstract(), now, draws, order[..i], out, lost)
      {
        assert order[i] in order;
        out, lost := TickOne(net, now, draws, order, i, out, lost, st);
      }
      assert order[..|order|] == order;
    }

    /** The loop body of tick, for the i-th peer. */
    method TickOne(net: Net, now: int, draws: map<NodeId, seq<Draw>>, order: seq<NodeId>, i: nat, out: seq<Out>, lost: bool,
                   ghost st: State)
      returns (out': seq<Out>, lost': bool)
      requires Valid() && Enough(st, draws) && i < |order| && order[i] in peers && order[i] !in order[..i]
      requires Progress(net, st, Abstract(), now, draws, order[..i], out, lost)
      modifies peers[order[i]]
      ensures Progress(net, st, Abstract(), now, draws, order[..i + 1], out', lost')
    {
      var id := order[i];
      assert peers[id].View() == Ticked(net, st, now, draws, order[..i])[id] == st.peers[id];
      var more, gone := peers[id].Tick(net, now, draws[id]);
      OneChanged(id);
      MoreTicked(net, st, now, draws, order, i);
      OneTicked(net, st, now, draws, order, i, out, lost);
      out', lost' := out + more, lost || gone;
    }
  }

  /** How far tick has come: u is st with these peers ticked. */
  ghost predicate Progress(net: Net, st: State, u: State, now: int, draws: map<NodeId, seq<Draw>>, done: seq<NodeId>,
                           out: seq<Out>, lost: bool)
    requires Enough(st, draws)
  {
    u == st.(peers := Ticked(net, st, now, draws, done)) && Sent(net, st, now, draws, done, out, lost)
  }

  /** Ranging over a map: its keys in whatever order. */
  method Range(keys: set<NodeId>) returns (order: seq<NodeId>)
    ensures Common.Enumerates(order, keys)
  {
    order := [];
    var left := keys;
    while left != {}
      invariant left <= keys && Common.Enumerates(order, keys - left)
      decreases |left|
    {
      var id :| id in left;
      left := left - {id};
      order := order + [id];
    }
  }

  /** The peers when tick has come to these. */
  ghost function Ticked(net: Net, st: State, now: int, draws: map<NodeId, seq<Draw>>, done: seq<NodeId>): map<NodeId, Peer>
    requires Enough(st, draws)
  {
    map id | id in st.peers :: if id in done then TickPeer(net, st.peers[id], now, draws[id]).0 else st.peers[id]
  }

  lemma NoneTicked(net: Net, st: State, now: int, draws: map<NodeId, seq<Draw>>)
    requires Enough(st, draws)
    ensures st.(peers := Ticked(net, st, now, draws, [])) == st
  {
    assert Ticked(net, st, now, draws, []) == st.peers;
  }

  lemma MoreTicked(net: Net, st: State, now: int, draws: map<NodeId, seq<Draw>>, order: seq<NodeId>, i: nat)
    requires Enough(st, draws) && i < |order| && order[i] in st.peers
    ensures Ticked(net, st, now, draws, order[..i + 1])
         == Ticked(net, st, now, draws, order[..i])[order[i] := TickPeer(net, st.peers[order[i]], now, draws[order[i]]).0]
  {
    assert order[..i + 1] == order[..i] + [order[i]];
  }

  lemma AllTicked(net: Net, st: State, now: int, draws: map<NodeId, seq<Draw>>, order: seq<NodeId>)
    requires Enough(st, draws) && Common.Enumerates(order, st.peers.Keys)
    ensures st.(peers := Ticked(net, st, now, draws, order)) == DiscoState.Tick(net, st, now, draws)
  {
    assert Ticked(net, st, now, draws, order) == DiscoState.Tick(net, st, now, draws).peers;
  }

  /** What comes of ticking these peers in this order: what is sent, and whether
      some path was lost. */
  ghost predicate Sent(net: Net, st: State, now: int, draws: map<NodeId, seq<Draw>>, done: seq<NodeId>, out: seq<Out>, lost: bool)
    requires Enough(st, draws)
  {
    (forall id :: id in done ==> id in st.peers)
    && out == TickOut(net, st, now, draws, done)
    && (lost <==> exists id :: id in done && Dropped(st.peers[id].best, now) != st.peers[id].best)
  }

  function TickOut(net: Net, st: State, now: int, draws: map<NodeId, seq<Draw>>, order: seq<NodeId>): seq<Out>
    requires Enough(st, draws) && forall id :: id in order ==> id in st.peers
  {
    if order == [] then []
    else
      var id := order[|order| - 1];
      TickOut(net, st, now, draws, order[..|order| - 1]) + TickPeer(net, st.peers[id], now, draws[id]).1
  }

  lemma OneTicked(net: Net, st: State, now: int, draws: map<NodeId, seq<Draw>>, order: seq<NodeId>, i: nat,
                  out: seq<Out>, lost: bool)
    requires Enough(st, draws) && i < |order| && order[i] in st.peers && Sent(net, st, now, draws, order[..i], out, lost)
    ensures var id := order[i];
      Sent(net, st, now, draws, order[..i + 1], out + TickPeer(net, st.peers[id], now, draws[id]).1,
           lost || Dropped(st.peers[id].best, now) != st.peers[id].best)
  {
    assert order[..i + 1] == order[..i] + [order[i]] && order[..i + 1][..i] == order[..i];
  }

  ghost function GoneKeys(was: map<NodeId, PeerObject>, still: set<NodeId>, left: set<NodeId>): set<Key>
  {
    set id | id in was && id !in still && id !in left :: was[id].key
  }

  ghost function Remaining(was: map<NodeId, PeerObject>, still: set<NodeId>, left: set<NodeId>): map<NodeId, PeerObject>
  {
    map id | id in was && (id in still || id in left) :: was[id]
  }

  lemma RemainingStart(was: map<NodeId, PeerObject>, still: set<NodeId>)
    ensures Remaining(was, still, was.Keys) == was && GoneKeys(was, still, was.Keys) == {}
  {
  }

  lemma RemainingStep(
      was: map<NodeId, PeerObject>, byKey: map<Key, PeerObject>, still: set<NodeId>, left: set<NodeId>, id: NodeId)
    requires id in was && id !in left
    ensures id in still ==> Remaining(was, still, left) == Remaining(was, still, left + {id})
                            && GoneKeys(was, still, left) == GoneKeys(was, still, left + {id})
    ensures id !in still ==> Remaining(was, still, left) == Remaining(was, still, left + {id}) - {id}
                             && byKey - GoneKeys(was, still, left) == byKey - GoneKeys(was, still, left + {id}) - {was[id].key}
  {
    if id !in still {
      assert GoneKeys(was, still, left) == GoneKeys(was, still, left + {id}) + {was[id].key};
    }
  }

  lemma GoneAre(was: map<NodeId, PeerObject>, views: map<NodeId, Peer>, still: set<NodeId>)
    requires views.Keys == was.Keys && forall id :: id in was ==> views[id].key == was[id].key
    ensures (set id | id in views && id !in still :: views[id].key) == GoneKeys(was, still, {})
  {
    var a, b := set id | id in views && id !in still :: views[id].key, GoneKeys(was, still, {});
    forall k | k in a ensures k in b {
      var id :| id in views && id !in still && views[id].key == k;
      assert id in was && was[id].key == k;
    }
    forall k | k in b ensures k in a {
      var id :| id in was && id !in still && was[id].key == k;
      assert id in views && views[id].key == k;
    }
  }

  lemma HintedMore(st: State, ids: seq<NodeId>, i: nat, addrs: seq<Addr>)
    requires i < |ids|
    ensures DiscoState.AddHints(DiscoState.AddHints(st, ids[..i], addrs), [ids[i]], addrs)
         == DiscoState.AddHints(st, ids[..i + 1], addrs)
  {
    assert ids[..i + 1] == ids[..i] + [ids[i]];
    assert DiscoState.AddHints(DiscoState.AddHints(st, ids[..i], addrs), [ids[i]], addrs).peers
        == DiscoState.AddHints(st, ids[..i + 1], addrs).peers;
  }
}
