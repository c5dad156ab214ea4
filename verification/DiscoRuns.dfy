/** internal/node/disco.go: what holds in every state the path finder can reach,
    whatever controllers say, packets arrive and ticks come between. */
module DiscoRuns {
  import opened DiscoPaths
  import opened DiscoState

  // ---- one state ----

  predicate Bounded(p: Peer)
  {
    |p.sent| <= MAX_PENDING && |p.learned| <= MAX_CANDIDATES
    && |p.hints| <= MAX_CANDIDATES && |p.gossip| <= MAX_CANDIDATES && |p.candidates| <= MAX_CANDIDATES + 1
  }

  /** Every key leads to a known peer that holds it. */
  predicate KeysLead(st: State)
  {
    forall k :: k in st.byKey ==> st.byKey[k] in st.peers && st.peers[st.byKey[k]].key == k
  }

  predicate Sound(st: State)
  {
    (forall id :: id in st.peers ==> st.peers[id].id == id && Bounded(st.peers[id]))
    && KeysLead(st)
    && st.peers.Keys == Mentioned(st.byCtrl)
  }

  /** Nobody else holds a peer's keys. */
  predicate Owned(st: State, owner: Key -> NodeId)
  {
    forall id :: id in st.peers ==> owner(st.peers[id].key) == id
  }

  /** The key a peer is told to hold is its own; one that is skipped may say
      anything. */
  predicate Owns(owner: Key -> NodeId, t: Told)
  {
    !Skipped(t) ==> owner(t.key) == t.id
  }

  /** Every known peer is found by its key. */
  predicate AllFound(st: State)
  {
    forall id :: id in st.peers ==> st.peers[id].key in st.byKey && st.byKey[st.peers[id].key] == id
  }

  /** A peer is new, or what it was but for its candidates. */
  predicate Kept(p: Peer, st: State)
  {
    if p.id in st.peers && p.key == st.peers[p.id].key then p == st.peers[p.id].(candidates := p.candidates)
    else p.best.None? && p.sent == map[] && p.learned == p.hints == p.gossip == []
  }

  predicate AllKept(u: State, st: State)
  {
    forall id :: id in u.peers ==> u.peers[id].id == id && Kept(u.peers[id], st)
  }

  predicate Proper(t: Told)
  {
    |t.relayed| <= 1
  }

  lemma HearKeeps(st: State, t: Told, now: int)
    requires KeysLead(st) && Proper(t)
    requires forall id :: id in st.peers ==> st.peers[id].id == id && |st.peers[id].candidates| <= MAX_CANDIDATES + 1
    ensures var u := Hear(st, t, now);
      KeysLead(u) && u.byCtrl == st.byCtrl
      && (forall id :: id in u.peers ==> u.peers[id].id == id && |u.peers[id].candidates| <= MAX_CANDIDATES + 1)
      && u.peers.Keys == st.peers.Keys + if Skipped(t) then {} else {t.id}
  {
  }

  lemma HearFinds(st: State, t: Told, now: int, owner: Key -> NodeId)
    requires Owned(st, owner) && AllFound(st) && Owns(owner, t)
    ensures Owned(Hear(st, t, now), owner) && AllFound(Hear(st, t, now))
  {
  }

  lemma {:induction false} HearAllKeeps(st: State, told: seq<Told>, now: int)
    requires KeysLead(st) && forall t :: t in told ==> Proper(t)
    requires forall id :: id in st.peers ==> st.peers[id].id == id && |st.peers[id].candidates| <= MAX_CANDIDATES + 1
    ensures var u := HearAll(st, told, now);
      KeysLead(u) && u.byCtrl == st.byCtrl
      && (forall id :: id in u.peers ==> u.peers[id].id == id && |u.peers[id].candidates| <= MAX_CANDIDATES + 1)
      && u.peers.Keys == st.peers.Keys + set id | id in Ids(told)
  {
    if told != [] {
      var n := |told| - 1;
      HearAllKeeps(st, told[..n], now);
      assert told[n] in told;
      HearKeeps(HearAll(st, told[..n], now), told[n], now);
    }
  }

  predicate DistinctIds(told: seq<Told>)
  {
    forall i, j :: 0 <= i < j < |told| ==> told[i].id != told[j].id
  }

  lemma {:induction false} IdsOf(told: seq<Told>, id: NodeId)
    ensures id in Ids(told) ==> exists t :: t in told && t.id == id
  {
    if told != [] {
      IdsOf(told[..|told| - 1], id);
      assert told[|told| - 1] in told;
    }
  }

  /** Who is not told about again is as it was. */
  lemma {:induction false} Untold(st: State, told: seq<Told>, now: int, id: NodeId)
    requires forall t :: t in told ==> t.id != id
    ensures id in HearAll(st, told, now).peers <==> id in st.peers
    ensures id in st.peers ==> HearAll(st, told, now).peers[id] == st.peers[id]
  {
    if told != [] {
      assert told[|told| - 1] in told;
      Untold(st, told[..|told| - 1], now, id);
    }
  }

  lemma {:induction false} HearAllKept(st: State, told: seq<Told>, now: int)
    requires DistinctIds(told) && forall id :: id in st.peers ==> st.peers[id].id == id
    ensures AllKept(HearAll(st, told, now), st)
  {
    if told != [] {
      var n := |told| - 1;
      HearAllKept(st, told[..n], now);
      Untold(st, told[..n], now, told[n].id);
    }
  }

  lemma {:induction false} HearAllFinds(st: State, told: seq<Told>, now: int, owner: Key -> NodeId)
    requires Owned(st, owner) && AllFound(st) && forall t :: t in told ==> Owns(owner, t)
    ensures Owned(HearAll(st, told, now), owner) && AllFound(HearAll(st, told, now))
  {
    if told != [] {
      var n := |told| - 1;
      HearAllFinds(st, told[..n], now, owner);
      assert told[n] in told;
      HearFinds(HearAll(st, told[..n], now), told[n], now, owner);
    }
  }

  lemma ForgetKeeps(st: State)
    requires KeysLead(st) && Mentioned(st.byCtrl) <= st.peers.Keys
    ensures KeysLead(Forget(st)) && Forget(st).peers.Keys == Mentioned(st.byCtrl)
  {
    var still, u := Mentioned(st.byCtrl), Forget(st);
    assert forall id :: id in st.peers && id !in still ==> st.peers[id].key !in u.byKey;
  }

  lemma ForgetFinds(st: State, owner: Key -> NodeId)
    requires Owned(st, owner) && AllFound(st)
    ensures Owned(Forget(st), owner) && AllFound(Forget(st))
  {
  }

  lemma AllMentionedAreKnown(st: State, ctrl: Ctrl, ids: seq<NodeId>, known: set<NodeId>)
    requires Mentioned(st.byCtrl) <= known && forall id :: id in ids ==> id in known
    ensures Mentioned(st.byCtrl[ctrl := ids]) <= known
  {
    var byCtrl := st.byCtrl[ctrl := ids];
    forall id | id in Mentioned(byCtrl) ensures id in known {
      var c :| c in byCtrl && id in byCtrl[c];
      if c != ctrl {
        assert id in Mentioned(st.byCtrl);
      }
    }
  }

  lemma KeptIsBounded(p: Peer, st: State)
    requires Kept(p, st) && |p.candidates| <= MAX_CANDIDATES + 1
    requires p.id in st.peers ==> Bounded(st.peers[p.id])
    ensures Bounded(p)
  {
  }

  /** setPeers keeps the tables agreeing. */
  lemma SetPeersKeeps(st: State, ctrl: Ctrl, told: seq<Told>, now: int)
    requires Sound(st) && DistinctIds(told) && forall t :: t in told ==> Proper(t)
    ensures Sound(SetPeers(st, ctrl, told, now))
  {
    var heard := HearAll(st, told, now);
    HearAllKeeps(st, told, now);
    HearAllKept(st, told, now);
    AllMentionedAreKnown(st, ctrl, Ids(told), heard.peers.Keys);
    ForgetKeeps(heard.(byCtrl := heard.byCtrl[ctrl := Ids(told)]));
    forall id | id in heard.peers ensures Bounded(heard.peers[id]) {
      KeptIsBounded(heard.peers[id], st);
    }
  }

  lemma SetPeersKept(st: State, ctrl: Ctrl, told: seq<Told>, now: int)
    requires DistinctIds(told) && forall id :: id in st.peers ==> st.peers[id].id == id
    ensures AllKept(SetPeers(st, ctrl, told, now), st)
  {
    HearAllKept(st, told, now);
  }

  lemma SetPeersFinds(st: State, ctrl: Ctrl, told: seq<Told>, now: int, owner: Key -> NodeId)
    requires Owned(st, owner) && AllFound(st) && forall t :: t in told ==> Owns(owner, t)
    ensures Owned(SetPeers(st, ctrl, told, now), owner) && AllFound(SetPeers(st, ctrl, told, now))
  {
    HearAllFinds(st, told, now, owner);
    var heard := HearAll(st, told, now);
    ForgetFinds(heard.(byCtrl := heard.byCtrl[ctrl := Ids(told)]), owner);
  }

  // ---- pings ----

  /** Where a pending ping comes from: it was pending, or it was drawn now. */
  predicate Pinging(r: map<Tx, Ping>, sent: map<Tx, Ping>, targets: seq<Addr>, draws: seq<Draw>, now: int)
    requires |draws| >= |targets|
  {
    forall tx :: tx in r ==>
      (tx in sent && r[tx] == sent[tx])
      || exists i :: 0 <= i < |targets| && draws[i].tx == tx && r[tx] == Ping(targets[i], now)
  }

  lemma {:induction false} PingAllKeeps(key: Key, sent: map<Tx, Ping>, targets: seq<Addr>, draws: seq<Draw>, now: int)
    requires |draws| >= |targets| && |sent| <= MAX_PENDING
    ensures |PingAll(key, sent, targets, draws, now).0| <= MAX_PENDING
    ensures Pinging(PingAll(key, sent, targets, draws, now).0, sent, targets, draws, now)
  {
    if targets != [] {
      var n := |targets| - 1;
      PingAllKeeps(key, sent, targets[..n], draws, now);
      var r := PingAll(key, sent, targets[..n], draws, now).0;
      var r' := PingAll(key, sent, targets, draws, now).0;
      forall tx | tx in r'
        ensures (tx in sent && r'[tx] == sent[tx])
             || exists i :: 0 <= i < |targets| && draws[i].tx == tx && r'[tx] == Ping(targets[i], now)
      {
        if tx in r && r'[tx] == r[tx] && !(tx in sent && r[tx] == sent[tx]) {
          var i :| 0 <= i < n && draws[i].tx == tx && r[tx] == Ping(targets[..n][i], now);
          assert targets[i] == targets[..n][i];
        } else if !(tx in r && r'[tx] == r[tx]) {
          assert draws[n].tx == tx && r'[tx] == Ping(targets[n], now);
        }
      }
    }
  }

  /** The pings in out are those in r that were not in sent. */
  ghost predicate SendsNew(key: Key, r: map<Tx, Ping>, out: seq<Out>, sent: map<Tx, Ping>, now: int)
  {
    forall tx: Tx, to: Addr :: Out(key, PingMsg(tx), to) in out <==> (tx !in sent && tx in r && r[tx].to == to && r[tx].at == now)
  }

  lemma {:induction false} PingAllDrawn(key: Key, sent: map<Tx, Ping>, targets: seq<Addr>, draws: seq<Draw>, now: int)
    requires |draws| >= |targets|
    ensures forall tx :: tx in PingAll(key, sent, targets, draws, now).0 && tx !in sent
              ==> exists i :: 0 <= i < |targets| && draws[i].tx == tx
  {
    if targets != [] {
      PingAllDrawn(key, sent, targets[..|targets| - 1], draws, now);
    }
  }

  lemma OneSent(key: Key, r: map<Tx, Ping>, out: seq<Out>, sent: map<Tx, Ping>, now: int, tx: Tx, to: Addr)
    requires SendsNew(key, r, out, sent, now) && tx !in r && tx !in sent
    ensures SendsNew(key, r[tx := Ping(to, now)], out + [Out(key, PingMsg(tx), to)], sent, now)
  {
    var one := Out(key, PingMsg(tx), to);
    var r' := r[tx := Ping(to, now)];
    forall t: Tx, x: Addr
      ensures Out(key, PingMsg(t), x) in out + [one] <==> (t !in sent && t in r' && r'[t].to == x && r'[t].at == now)
    {
      var o := Out(key, PingMsg(t), x);
      assert o in out + [one] <==> (o in out || o == one);
      assert Out(key, PingMsg(t), x) in out <==> (t !in sent && t in r && r[t].to == x && r[t].at == now);
    }
  }

  /** The pings sent are the ones written down, as long as no number repeats. */
  lemma {:induction false} PingAllSends(key: Key, sent: map<Tx, Ping>, targets: seq<Addr>, draws: seq<Draw>, now: int)
    requires |draws| >= |targets|
    requires forall i :: 0 <= i < |targets| ==> draws[i].tx !in sent
    requires forall i, j :: 0 <= i < j < |targets| ==> draws[i].tx != draws[j].tx
    ensures var r := PingAll(key, sent, targets, draws, now); SendsNew(key, r.0, r.1, sent, now)
  {
    if targets != [] {
      var n := |targets| - 1;
      PingAllSends(key, sent, targets[..n], draws, now);
      PingAllDrawn(key, sent, targets[..n], draws, now);
      var r := PingAll(key, sent, targets[..n], draws, now);
      OneSent(key, r.0, r.1, sent, now, draws[n].tx, targets[n]);
    }
  }
}
