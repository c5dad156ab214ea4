/** internal/room/room.go, peersDiff: only the difference between two peer
    lists is sent to the device, and that has to leave the device as if it had
    been configured from the new list alone. */
module PeersDiff {
  import opened Common
  import opened Ipv4
  import opened Uapi

  datatype Peer = Peer(name: string, key: Key, endpoint: string, allowedIPs: seq<Prefix>, keepalive: nat) {
    /** The networks as the device is given them. */
    function Allowed(): set<Prefix>
    {
      set x | x in allowedIPs :: x.Masked()
    }
  }

  type Table = map<Key, Peer>

  predicate Unchanged(was: Table, p: Peer)
  {
    p.key in was && was[p.key].endpoint == p.endpoint && was[p.key].keepalive == p.keepalive
    && was[p.key].allowedIPs == p.allowedIPs
  }

  predicate Deferred(was: Table, p: Peer, self: Key)
  {
    p.key !in was && p.keepalive > 0 && self > p.key
  }

  predicate PushesEndpoint(was: Table, p: Peer)
  {
    p.endpoint != "" && (p.key !in was || was[p.key].endpoint != p.endpoint)
  }

  // ---- the script ----

  function AllowedLines(ips: seq<Prefix>): seq<Line>
  {
    if ips == [] then [] else AllowedLines(ips[..|ips| - 1]) + [AllowedIP(ips[|ips| - 1].Masked())]
  }

  function KeepaliveLines(was: Table, p: Peer, self: Key): seq<Line>
  {
    if Deferred(was, p, self) then [Keepalive(0)]
    else if p.key !in was || was[p.key].keepalive != p.keepalive then [Keepalive(p.keepalive)]
    else []
  }

  function PeerLines(was: Table, p: Peer, psk: string, self: Key): seq<Line>
  {
    if Unchanged(was, p) then []
    else
      [PublicKey(p.key)]
      + (if p.key in was then [] else [PresharedKey(psk)])
      + (if PushesEndpoint(was, p) then [Endpoint(p.endpoint)] else [])
      + KeepaliveLines(was, p, self)
      + [ReplaceAllowedIPs]
      + AllowedLines(p.allowedIPs)
  }

  function Updates(was: Table, peers: seq<Peer>, psk: string, self: Key): seq<Line>
  {
    if peers == [] then []
    else Updates(was, peers[..|peers| - 1], psk, self) + PeerLines(was, peers[|peers| - 1], psk, self)
  }

  function Removals(keys: seq<Key>): seq<Line>
  {
    if keys == [] then []
    else Removals(keys[..|keys| - 1]) + [PublicKey(keys[|keys| - 1]), Remove]
  }

  function Next(peers: seq<Peer>): Table
  {
    if peers == [] then map[] else Next(peers[..|peers| - 1])[peers[|peers| - 1].key := peers[|peers| - 1]]
  }

  function DeferredKeys(was: Table, peers: seq<Peer>, self: Key): seq<Key>
  {
    if peers == [] then []
    else
      var p := peers[|peers| - 1];
      DeferredKeys(was, peers[..|peers| - 1], self) + if Deferred(was, p, self) then [p.key] else []
  }

  /** The body of the loop over the new list, for a peer that changed. */
  method RenderPeer(was: Table, p: Peer, psk: string, self: Key) returns (b: seq<Line>, late: bool)
    requires !Unchanged(was, p)
    ensures b == PeerLines(was, p, psk, self)
    ensures late == Deferred(was, p, self)
  {
    var existed := p.key in was;
    b, late := [PublicKey(p.key)], false;
    if !existed {
      b := b + [PresharedKey(psk)];
    }
    if p.endpoint != "" && (!existed || was[p.key].endpoint != p.endpoint) {
      b := b + [Endpoint(p.endpoint)];
    }
    if !existed && p.keepalive > 0 && self > p.key {
      b := b + [Keepalive(0)];
      late := true;
    } else if !existed || was[p.key].keepalive != p.keepalive {
      b := b + [Keepalive(p.keepalive)];
    }
    b := b + [ReplaceAllowedIPs];
    ghost var head := b;
    for j := 0 to |p.allowedIPs|
      invariant b == head + AllowedLines(p.allowedIPs[..j])
    {
      assert p.allowedIPs[..j + 1][..j] == p.allowedIPs[..j];
      b := b + [AllowedIP(p.allowedIPs[j].Masked())];
    }
    assert p.allowedIPs[..|p.allowedIPs|] == p.allowedIPs;
  }

  /** The loop over the old list: remove what the new one lacks. */
  method RenderRemovals(was: Table, next: Table) returns (b: seq<Line>)
    ensures exists gone :: Enumerates(gone, was.Keys - next.Keys) && b == Removals(gone)
  {
    ghost var gone: seq<Key> := [];
    b := [];
    var todo := was.Keys;
    while todo != {}
      invariant todo <= was.Keys
      invariant Enumerates(gone, was.Keys - todo - next.Keys)
      invariant b == Removals(gone)
      decreases todo
    {
      var k :| k in todo;
      todo := todo - {k};
      if k !in next {
        assert k !in gone;
        assert (gone + [k])[..|gone|] == gone;
        b := b + [PublicKey(k), Remove];
        gone := gone + [k];
      }
    }
    assert was.Keys - todo - next.Keys == was.Keys - next.Keys;
  }

  method Diff(was: Table, peers: seq<Peer>, psk: string, self: Key)
    returns (uapi: seq<Line>, next: Table, deferred: seq<Key>)
    ensures next == Next(peers)
    ensures deferred == DeferredKeys(was, peers, self)
    ensures exists gone :: Enumerates(gone, was.Keys - next.Keys)
                           && uapi == Updates(was, peers, psk, self) + Removals(gone)
  {
    uapi, next, deferred := [], map[], [];
    for i := 0 to |peers|
      invariant uapi == Updates(was, peers[..i], psk, self)
      invariant next == Next(peers[..i])
      invariant deferred == DeferredKeys(was, peers[..i], self)
    {
      var p := peers[i];
      assert peers[..i + 1][..i] == peers[..i];
      next := next[p.key := p];
      if p.key in was && was[p.key].endpoint == p.endpoint && was[p.key].keepalive == p.keepalive
         && was[p.key].allowedIPs == p.allowedIPs {
        continue;
      }
      var b, late := RenderPeer(was, p, psk, self);
      uapi := uapi + b;
      if late {
        deferred := deferred + [p.key];
      }
    }
    assert peers[..|peers|] == peers;
    var removals := RenderRemovals(was, next);
    uapi := uapi + removals;
  }

  // ---- what the device ends up with ----

  /** dev is configured from peers; keepalive may still be off for late keys. */
  ghost predicate Represents(dev: Peers, peers: Table, psk: string, late: set<Key>)
  {
    dev.Keys == peers.Keys
    && forall k :: k in peers ==>
         dev[k].psk == psk && dev[k].allowed == peers[k].Allowed()
         && (dev[k].keepalive == peers[k].keepalive || (k in late && dev[k].keepalive == 0))
  }

  predicate DistinctKeys(peers: seq<Peer>)
  {
    forall i, j :: 0 <= i < j < |peers| ==> peers[i].key != peers[j].key
  }

  /** The endpoint of a peer after the diff: a learned one stays unless the
      list has a new one. */
  function EndpointAfter(dev: Peers, was: Table, p: Peer): string
  {
    if PushesEndpoint(was, p) then p.endpoint else if p.key in dev then dev[p.key].endpoint else ""
  }

  /** What the lines of one peer do to the table of the device. */
  function Effect(dev: Peers, was: Table, p: Peer, psk: string, self: Key): Peers
  {
    if Unchanged(was, p) then dev
    else
      var base := if p.key in dev then dev[p.key] else NEW_PEER;
      var keepalive :=
        if Deferred(was, p, self) then 0
        else if p.key !in was || was[p.key].keepalive != p.keepalive then p.keepalive
        else base.keepalive;
      var mine := DevPeer(if p.key in was then base.psk else psk, EndpointAfter(dev, was, p), keepalive, p.Allowed());
      map j | j in dev.Keys + {p.key} ::
        if j == p.key then mine else dev[j].(allowed := dev[j].allowed - p.Allowed())
  }

  lemma RunOne(d: Device, l: Line)
    ensures Run(d, [l]) == Exec(d, l)
  {
    assert [l][1..] == [];
    assert Run(Exec(d, l), []) == Exec(d, l);
  }

  lemma {:induction false} RunAllowed(d: Device, k: Key, ips: seq<Prefix>)
    requires d.cursor.At? && d.cursor.key == k && k in d.peers
    ensures Run(d, AllowedLines(ips)) == d.(peers := GiveAllowed(d.peers, k, set x | x in ips :: x.Masked()))
  {
    if ips == [] {
      assert (set x | x in ips :: x.Masked()) == {};
      forall j | j in d.peers
        ensures GiveAllowed(d.peers, k, {})[j] == d.peers[j]
      {
        assert d.peers[j].allowed - {} == d.peers[j].allowed && d.peers[j].allowed + {} == d.peers[j].allowed;
      }
      assert GiveAllowed(d.peers, k, {}) == d.peers;
    } else {
      var init, last := ips[..|ips| - 1], ips[|ips| - 1].Masked();
      RunAllowed(d, k, init);
      RunAppend(d, AllowedLines(init), [AllowedIP(last)]);
      var s, t := set x | x in init :: x.Masked(), set x | x in ips :: x.Masked();
      var e := d.(peers := GiveAllowed(d.peers, k, s));
      RunOne(e, AllowedIP(last));
      assert t == s + {last} by {
        assert ips == init + [ips[|ips| - 1]];
        forall x | x in ips ensures x in init || x == ips[|ips| - 1] {}
      }
      forall j | j in d.peers
        ensures GiveAllowed(e.peers, k, {last})[j] == GiveAllowed(d.peers, k, t)[j]
      {
        var a := d.peers[j].allowed;
        assert (a + s) + {last} == a + t && (a - s) - {last} == a - t;
      }
      assert GiveAllowed(e.peers, k, {last}) == GiveAllowed(d.peers, k, t);
    }
  }

  /** The device with peer k selected and set to q. */
  function Selected(d: Device, k: Key, q: DevPeer): Device
  {
    Device(d.peers[k := q], At(k, k !in d.peers))
  }

  lemma ExecSelected(d: Device, k: Key, q: DevPeer)
    ensures forall s :: Exec(Selected(d, k, q), PresharedKey(s)) == Selected(d, k, q.(psk := s))
    ensures forall e :: Exec(Selected(d, k, q), Endpoint(e)) == Selected(d, k, q.(endpoint := e))
    ensures forall n :: Exec(Selected(d, k, q), Keepalive(n)) == Selected(d, k, q.(keepalive := n))
    ensures Exec(Selected(d, k, q), ReplaceAllowedIPs) == Selected(d, k, q.(allowed := {}))
  {
    assert forall q' {:trigger d.peers[k := q']} :: d.peers[k := q][k := q'] == d.peers[k := q'];
  }

  function HeadLines(was: Table, p: Peer, psk: string, self: Key): seq<Line>
  {
    [PublicKey(p.key)]
    + (if p.key in was then [] else [PresharedKey(psk)])
    + (if PushesEndpoint(was, p) then [Endpoint(p.endpoint)] else [])
    + KeepaliveLines(was, p, self)
    + [ReplaceAllowedIPs]
  }

  /** The peer after the lines of p, before it is given its networks. */
  function HeadPeer(dev: Peers, was: Table, p: Peer, psk: string, self: Key): DevPeer
  {
    var base := if p.key in dev then dev[p.key] else NEW_PEER;
    DevPeer(
      if p.key in was then base.psk else psk,
      EndpointAfter(dev, was, p),
      if Deferred(was, p, self) then 0
      else if p.key !in was || was[p.key].keepalive != p.keepalive then p.keepalive
      else base.keepalive,
      {})
  }

  lemma RunHead(d: Device, was: Table, p: Peer, psk: string, self: Key)
    ensures Run(d, HeadLines(was, p, psk, self)) == Selected(d, p.key, HeadPeer(d.peers, was, p, psk, self))
  {
    var k := p.key;
    var l0 := [PublicKey(k)];
    var l1 := if k in was then [] else [PresharedKey(psk)];
    var l2 := if PushesEndpoint(was, p) then [Endpoint(p.endpoint)] else [];
    var l3 := KeepaliveLines(was, p, self);
    var head := HeadPeer(d.peers, was, p, psk, self);
    var q0 := if k in d.peers then d.peers[k] else NEW_PEER;
    var q1 := q0.(psk := head.psk);
    var q2 := q1.(endpoint := head.endpoint);
    var q3 := q2.(keepalive := head.keepalive);
    assert Run(d, l0) == Selected(d, k, q0) by {
      RunOne(d, PublicKey(k));
      assert k in d.peers ==> d.peers[k := d.peers[k]] == d.peers;
    }
    RunAppend(d, l0, l1);
    assert Run(d, l0 + l1) == Selected(d, k, q1) by {
      ExecSelected(d, k, q0);
      RunOne(Selected(d, k, q0), PresharedKey(psk));
    }
    RunAppend(d, l0 + l1, l2);
    assert Run(d, l0 + l1 + l2) == Selected(d, k, q2) by {
      ExecSelected(d, k, q1);
      RunOne(Selected(d, k, q1), Endpoint(p.endpoint));
    }
    RunAppend(d, l0 + l1 + l2, l3);
    assert Run(d, l0 + l1 + l2 + l3) == Selected(d, k, q3) by {
      ExecSelected(d, k, q2);
      RunOne(Selected(d, k, q2), Keepalive(head.keepalive));
    }
    RunAppend(d, l0 + l1 + l2 + l3, [ReplaceAllowedIPs]);
    ExecSelected(d, k, q3);
    RunOne(Selected(d, k, q3), ReplaceAllowedIPs);
  }

  /** The lines of one peer have exactly the effect described. */
  lemma RunPeer(d: Device, was: Table, p: Peer, psk: string, self: Key)
    ensures Run(d, PeerLines(was, p, psk, self)).peers == Effect(d.peers, was, p, psk, self)
  {
    if !Unchanged(was, p) {
      var mid := Selected(d, p.key, HeadPeer(d.peers, was, p, psk, self));
      RunHead(d, was, p, psk, self);
      RunAppend(d, HeadLines(was, p, psk, self), AllowedLines(p.allowedIPs));
      RunAllowed(mid, p.key, p.allowedIPs);
      assert {} + p.Allowed() == p.Allowed();
      assert GiveAllowed(mid.peers, p.key, p.Allowed()) == Effect(d.peers, was, p, psk, self);
    }
  }

  // ---- the whole script ----

  /** Different keys list different networks; a key may be listed twice. */
  ghost predicate ApartList(peers: seq<Peer>)
  {
    forall i, j :: 0 <= i < |peers| && 0 <= j < |peers| && peers[i].key != peers[j].key
      ==> peers[i].Allowed() !! peers[j].Allowed()
  }

  ghost predicate DisjointList(peers: seq<Peer>)
  {
    forall i, j :: 0 <= i < j < |peers| ==> peers[i].Allowed() !! peers[j].Allowed()
  }

  /** The last entry of k that anything is sent of. */
  function LastSent(was: Table, peers: seq<Peer>, k: Key): Option<Peer>
  {
    if peers == [] then None
    else
      var p := peers[|peers| - 1];
      if p.key == k && !Unchanged(was, p) then Some(p) else LastSent(was, peers[..|peers| - 1], k)
  }

  /** The last keepalive that is sent for k. */
  function KeepaliveSent(was: Table, peers: seq<Peer>, self: Key, k: Key): Option<nat>
  {
    if peers == [] then None
    else
      var p := peers[|peers| - 1];
      if p.key != k then KeepaliveSent(was, peers[..|peers| - 1], self, k)
      else if Deferred(was, p, self) then Some(0)
      else if k !in was || was[k].keepalive != p.keepalive then Some(p.keepalive)
      else KeepaliveSent(was, peers[..|peers| - 1], self, k)
  }

  function EndpointSent(was: Table, peers: seq<Peer>, k: Key): Option<string>
  {
    if peers == [] then None
    else
      var p := peers[|peers| - 1];
      if p.key == k && PushesEndpoint(was, p) then Some(p.endpoint)
      else EndpointSent(was, peers[..|peers| - 1], k)
  }

  function Or<T>(o: Option<T>, other: T): T
  {
    if o.Some? then o.value else other
  }

  /** What the device had of k before. */
  function Base(dev0: Peers, k: Key): DevPeer
  {
    if k in dev0 then dev0[k] else NEW_PEER
  }

  /** Only what another key lists is missing of the networks had before. */
  ghost predicate LostToOthers(had: set<Prefix>, has: set<Prefix>, peers: seq<Peer>, k: Key)
  {
    has <= had
    && forall x :: x in had && x !in has ==> exists i :: 0 <= i < |peers| && peers[i].key != k && x in peers[i].Allowed()
  }

  /** Peer k of the device after the updates for a list: of each field what was
      sent last, or what was there. */
  ghost predicate Pushed(q: DevPeer, k: Key, dev0: Peers, was: Table, peers: seq<Peer>, psk: string, self: Key)
  {
    var base, sent := Base(dev0, k), LastSent(was, peers, k);
    q.psk == (if k in was then base.psk else psk)
    && q.keepalive == Or(KeepaliveSent(was, peers, self, k), base.keepalive)
    && q.endpoint == Or(EndpointSent(was, peers, k), base.endpoint)
    && if sent.Some? then q.allowed == sent.value.Allowed() else LostToOthers(base.allowed, q.allowed, peers, k)
  }

  ghost predicate Updated(dev: Peers, dev0: Peers, was: Table, peers: seq<Peer>, psk: string, self: Key)
  {
    dev.Keys == dev0.Keys + Next(peers).Keys
    && forall k :: k in dev ==> Pushed(dev[k], k, dev0, was, peers, psk, self)
  }

  lemma {:induction false} SentIsListed(was: Table, peers: seq<Peer>, k: Key)
    ensures var c := LastSent(was, peers, k);
      c.Some? ==> exists i :: 0 <= i < |peers| && peers[i] == c.value && c.value.key == k
  {
    if peers != [] {
      SentIsListed(was, peers[..|peers| - 1], k);
    }
  }

  lemma {:induction false} NextIsListed(peers: seq<Peer>, k: Key)
    ensures k in Next(peers) ==> Next(peers)[k].key == k && exists i :: 0 <= i < |peers| && peers[i] == Next(peers)[k]
    ensures k !in Next(peers) ==> forall i :: 0 <= i < |peers| ==> peers[i].key != k
  {
    if peers != [] {
      NextIsListed(peers[..|peers| - 1], k);
      var i := |peers| - 1;
      assert peers == peers[..i] + [peers[i]];
    }
  }

  lemma StillLost(had: set<Prefix>, has: set<Prefix>, peers: seq<Peer>, k: Key, p: Peer)
    requires LostToOthers(had, has, peers, k)
    ensures LostToOthers(had, has, peers + [p], k)
    ensures p.key != k ==> LostToOthers(had, has - p.Allowed(), peers + [p], k)
  {
    var more := peers + [p];
    assert more[|peers|] == p;
    forall x | x in had && x !in has
      ensures exists i :: 0 <= i < |more| && more[i].key != k && x in more[i].Allowed()
    {
      var i :| 0 <= i < |peers| && peers[i].key != k && x in peers[i].Allowed();
      assert more[i] == peers[i];
    }
  }

  /** One more entry, seen from the peer it is about. */
  lemma PushedOwn(dev: Peers, dev0: Peers, was: Table, peers: seq<Peer>, p: Peer, psk: string, self: Key)
    requires Updated(dev, dev0, was, peers, psk, self) && dev0.Keys == was.Keys
    ensures var dev' := Effect(dev, was, p, psk, self);
      p.key in dev' && Pushed(dev'[p.key], p.key, dev0, was, peers + [p], psk, self)
  {
    var k := p.key;
    assert (peers + [p])[..|peers|] == peers;
    if k !in dev {
      NothingSent(was, peers, self, k);
    } else if Unchanged(was, p) && LastSent(was, peers, k).None? {
      StillLost(Base(dev0, k).allowed, dev[k].allowed, peers, k, p);
    }
  }

  lemma {:induction false} NothingSent(was: Table, peers: seq<Peer>, self: Key, k: Key)
    requires k !in Next(peers)
    ensures LastSent(was, peers, k).None? && EndpointSent(was, peers, k).None? && KeepaliveSent(was, peers, self, k).None?
  {
    if peers != [] {
      NothingSent(was, peers[..|peers| - 1], self, k);
    }
  }

  /** One more entry, seen from another peer. */
  lemma PushedOther(dev: Peers, dev0: Peers, was: Table, peers: seq<Peer>, p: Peer, psk: string, self: Key, k: Key)
    requires k in dev && k != p.key && Pushed(dev[k], k, dev0, was, peers, psk, self) && ApartList(peers + [p])
    ensures Pushed(Effect(dev, was, p, psk, self)[k], k, dev0, was, peers + [p], psk, self)
  {
    var more := peers + [p];
    assert more[..|peers|] == peers && more[|peers|] == p;
    if LastSent(was, peers, k).Some? {
      SentIsListed(was, peers, k);
      var c := LastSent(was, peers, k).value;
      var i :| 0 <= i < |peers| && peers[i] == c;
      assert more[i] == c && c.Allowed() !! p.Allowed();
      assert c.Allowed() - p.Allowed() == c.Allowed();
    } else {
      StillLost(Base(dev0, k).allowed, dev[k].allowed, peers, k, p);
    }
  }

  lemma UpdatedStep(dev: Peers, dev0: Peers, was: Table, peers: seq<Peer>, p: Peer, psk: string, self: Key)
    requires Updated(dev, dev0, was, peers, psk, self) && dev0.Keys == was.Keys && ApartList(peers + [p])
    ensures Updated(Effect(dev, was, p, psk, self), dev0, was, peers + [p], psk, self)
  {
    var dev', more := Effect(dev, was, p, psk, self), peers + [p];
    assert more[..|peers|] == peers;
    assert Next(more) == Next(peers)[p.key := p];
    PushedOwn(dev, dev0, was, peers, p, psk, self);
    assert dev'.Keys == dev.Keys + {p.key};
    forall k | k in dev' ensures Pushed(dev'[k], k, dev0, was, more, psk, self) {
      if k != p.key {
        PushedOther(dev, dev0, was, peers, p, psk, self, k);
      }
    }
  }

  lemma {:induction false} RunUpdates(d: Device, was: Table, peers: seq<Peer>, psk: string, self: Key)
    requires ApartList(peers) && d.peers.Keys == was.Keys
    requires forall k :: k in was ==> d.peers[k].psk == psk
    ensures Updated(Run(d, Updates(was, peers, psk, self)).peers, d.peers, was, peers, psk, self)
  {
    if peers == [] {
      assert d.peers.Keys + Next(peers).Keys == d.peers.Keys;
    } else {
      var init, p := peers[..|peers| - 1], peers[|peers| - 1];
      assert peers == init + [p];
      RunUpdates(d, was, init, psk, self);
      RunAppend(d, Updates(was, init, psk, self), PeerLines(was, p, psk, self));
      var mid := Run(d, Updates(was, init, psk, self));
      RunPeer(mid, was, p, psk, self);
      UpdatedStep(mid.peers, d.peers, was, init, p, psk, self);
    }
  }

  lemma {:induction false} RunRemovals(d: Device, keys: seq<Key>)
    ensures Run(d, Removals(keys)).peers == d.peers - (set k | k in keys)
  {
    if keys == [] {
      assert d.peers - {} == d.peers;
    } else {
      var init, k := keys[..|keys| - 1], keys[|keys| - 1];
      RunRemovals(d, init);
      var mid := Run(d, Removals(init));
      RunAppend(d, Removals(init), [PublicKey(k), Remove]);
      RunRemoval(mid, k);
      assert keys == init + [k];
      assert (set x | x in keys) == (set x | x in init) + {k};
      assert mid.peers - {k} == d.peers - (set x | x in keys);
    }
  }

  lemma RunRemoval(d: Device, k: Key)
    ensures Run(d, [PublicKey(k), Remove]).peers == d.peers - {k}
  {
    RunAppend(d, [PublicKey(k)], [Remove]);
    RunOne(d, PublicKey(k));
    RunOne(Exec(d, PublicKey(k)), Remove);
    assert [PublicKey(k)] + [Remove] == [PublicKey(k), Remove];
    assert Exec(d, PublicKey(k)).peers - {k} == d.peers - {k};
  }

  // ---- when the device represents the list ----

  /** The last entry of k whose keepalive is not the old one. */
  function LastOther(was: Table, peers: seq<Peer>, k: Key): Option<Peer>
    requires k in was
  {
    if peers == [] then None
    else
      var p := peers[|peers| - 1];
      if p.key == k && p.keepalive != was[k].keepalive then Some(p) else LastOther(was, peers[..|peers| - 1], k)
  }

  /** The last entry of k is as in the old table, so nothing is sent of it, after
      an earlier one gave the peer other networks. */
  predicate LeavesNetworks(was: Table, peers: seq<Peer>, k: Key)
    requires k in Next(peers)
  {
    Unchanged(was, Next(peers)[k]) && LastSent(was, peers, k).Some?
    && LastSent(was, peers, k).value.Allowed() != Next(peers)[k].Allowed()
  }

  /** The last entry of k has the old keepalive, so it is not sent, after an earlier
      one set another; a zero does no harm while a timer for k is pending. */
  predicate LeavesKeepalive(was: Table, peers: seq<Peer>, k: Key, late: set<Key>)
    requires k in Next(peers) && k in was
  {
    Next(peers)[k].keepalive == was[k].keepalive && LastOther(was, peers, k).Some?
    && !(k in late && LastOther(was, peers, k).value.keepalive == 0)
  }

  predicate Misconfigures(was: Table, peers: seq<Peer>, k: Key, late: set<Key>)
    requires k in Next(peers)
  {
    k in was && (LeavesNetworks(was, peers, k) || LeavesKeepalive(was, peers, k, late))
  }

  ghost predicate RepresentsPeer(q: DevPeer, p: Peer, psk: string, off: bool)
  {
    q.psk == psk && q.allowed == p.Allowed() && (q.keepalive == p.keepalive || (off && q.keepalive == 0))
  }

  /** The last entry of a key is sent unless it is as in the old table. */
  lemma {:induction false} LastEntry(was: Table, peers: seq<Peer>, self: Key, k: Key)
    requires k in Next(peers)
    ensures var e := Next(peers)[k];
      e.key == k && (!Unchanged(was, e) ==> LastSent(was, peers, k) == Some(e))
      && (Deferred(was, e, self) ==> KeepaliveSent(was, peers, self, k) == Some(0))
      && (!Deferred(was, e, self) && (k !in was || was[k].keepalive != e.keepalive)
          ==> KeepaliveSent(was, peers, self, k) == Some(e.keepalive))
  {
    if peers[|peers| - 1].key != k {
      LastEntry(was, peers[..|peers| - 1], self, k);
    }
  }

  /** Of an old peer the keepalives sent are those that differ from the old one. */
  lemma {:induction false} OldKeepaliveSent(was: Table, peers: seq<Peer>, self: Key, k: Key)
    requires k in was
    ensures var n, c := KeepaliveSent(was, peers, self, k), LastOther(was, peers, k);
      (n.Some? <==> c.Some?) && (n.Some? ==> n.value == c.value.keepalive != was[k].keepalive)
  {
    if peers != [] {
      OldKeepaliveSent(was, peers[..|peers| - 1], self, k);
    }
  }

  lemma {:induction false} LateAreDeferred(was: Table, peers: seq<Peer>, self: Key, k: Key)
    ensures k in DeferredKeys(was, peers, self)
       <==> exists i :: 0 <= i < |peers| && peers[i].key == k && Deferred(was, peers[i], self)
  {
    if peers != [] {
      var init, p := peers[..|peers| - 1], peers[|peers| - 1];
      LateAreDeferred(was, init, self, k);
      assert peers == init + [p];
      if k in DeferredKeys(was, peers, self) {
        if Deferred(was, p, self) && p.key == k {
          assert peers[|peers| - 1] == p;
        } else {
          var i :| 0 <= i < |init| && init[i].key == k && Deferred(was, init[i], self);
          assert peers[i] == init[i];
        }
      }
    }
  }

  /** Networks of an old peer that nothing is sent of stay. */
  lemma NothingLost(had: set<Prefix>, has: set<Prefix>, peers: seq<Peer>, k: Key)
    requires ApartList(peers) && k in Next(peers) && LostToOthers(had, has, peers, k) && had == Next(peers)[k].Allowed()
    ensures has == had
  {
    NextIsListed(peers, k);
    var j :| 0 <= j < |peers| && peers[j] == Next(peers)[k];
    assert forall i :: 0 <= i < |peers| && peers[i].key != k ==> peers[i].Allowed() !! peers[j].Allowed();
    assert forall x :: x in had ==> x in has;
  }

  /** A peer of the old table is as the list says unless it is misconfigured. */
  lemma OldPeer(q: DevPeer, dev0: Peers, was: Table, peers: seq<Peer>, psk: string, self: Key, k: Key, late: set<Key>)
    requires ApartList(peers) && k in Next(peers) && k in was && k in dev0
    requires RepresentsPeer(dev0[k], was[k], psk, k in late)
    requires Pushed(q, k, dev0, was, peers, psk, self)
    ensures RepresentsPeer(q, Next(peers)[k], psk, k in late) <==> !Misconfigures(was, peers, k, late)
  {
    var e := Next(peers)[k];
    LastEntry(was, peers, self, k);
    OldKeepaliveSent(was, peers, self, k);
    if LastSent(was, peers, k).None? {
      assert e.Allowed() == was[k].Allowed();
      NothingLost(dev0[k].allowed, q.allowed, peers, k);
    }
  }

  /** A new peer always is, its keepalive perhaps not on yet. */
  lemma NewPeerAsListed(q: DevPeer, dev0: Peers, was: Table, peers: seq<Peer>, psk: string, self: Key, k: Key)
    requires k in Next(peers) && k !in was && Pushed(q, k, dev0, was, peers, psk, self)
    ensures RepresentsPeer(q, Next(peers)[k], psk, k in DeferredKeys(was, peers, self))
  {
    var e := Next(peers)[k];
    LastEntry(was, peers, self, k);
    NextIsListed(peers, k);
    LateAreDeferred(was, peers, self, k);
  }

  /** What the script leaves in a device that represents the old list. */
  lemma AfterScript(d: Device, was: Table, peers: seq<Peer>, psk: string, self: Key, late: set<Key>, gone: seq<Key>)
    requires ApartList(peers) && Represents(d.peers, was, psk, late)
    requires Enumerates(gone, was.Keys - Next(peers).Keys)
    ensures var dev := Run(d, Updates(was, peers, psk, self) + Removals(gone)).peers;
      dev.Keys == Next(peers).Keys && forall k :: k in dev ==> Pushed(dev[k], k, d.peers, was, peers, psk, self)
  {
    RunUpdates(d, was, peers, psk, self);
    var mid := Run(d, Updates(was, peers, psk, self));
    RunAppend(d, Updates(was, peers, psk, self), Removals(gone));
    RunRemovals(mid, gone);
    var removed := set k | k in gone;
    assert removed == was.Keys - Next(peers).Keys;
    assert (mid.peers - removed).Keys == Next(peers).Keys;
  }

  /** Main result: on any device that represents the old list, whatever order the
      removals come in and wherever networks move between peers, the script gives
      one that represents the new list exactly if no peer of the old table is left
      with networks or a keepalive that an earlier entry of its key set. */
  lemma DiffRepresents(d: Device, was: Table, peers: seq<Peer>, psk: string, self: Key, late: set<Key>, gone: seq<Key>)
    requires ApartList(peers) && Represents(d.peers, was, psk, late)
    requires Enumerates(gone, was.Keys - Next(peers).Keys)
    ensures var dev := Run(d, Updates(was, peers, psk, self) + Removals(gone)).peers;
            Represents(dev, Next(peers), psk, late + (set k | k in DeferredKeys(was, peers, self)))
            <==> forall k :: k in Next(peers) ==> !Misconfigures(was, peers, k, late)
  {
    AfterScript(d, was, peers, psk, self, late, gone);
    var dev := Run(d, Updates(was, peers, psk, self) + Removals(gone)).peers;
    var late' := late + set k | k in DeferredKeys(was, peers, self);
    forall k | k in Next(peers)
      ensures RepresentsPeer(dev[k], Next(peers)[k], psk, k in late') <==> !Misconfigures(was, peers, k, late)
    {
      LateAreDeferred(was, peers, self, k);
      if k in was {
        OldPeer(dev[k], d.peers, was, peers, psk, self, k, late);
      } else {
        NewPeerAsListed(dev[k], d.peers, was, peers, psk, self, k);
      }
    }
    RepresentsEach(dev, Next(peers), psk, late');
  }

  lemma RepresentsEach(dev: Peers, t: Table, psk: string, late: set<Key>)
    requires dev.Keys == t.Keys
    ensures Represents(dev, t, psk, late) <==> forall k :: k in t ==> RepresentsPeer(dev[k], t[k], psk, k in late)
  {
  }

  // ---- lists without repeated keys ----

  /** With distinct keys the one entry of a key is all there is. */
  lemma {:induction false} OneEntry(was: Table, peers: seq<Peer>, k: Key)
    requires DistinctKeys(peers) && k in Next(peers)
    ensures var e := Next(peers)[k];
      LastSent(was, peers, k) == (if Unchanged(was, e) then None else Some(e))
      && EndpointSent(was, peers, k) == (if PushesEndpoint(was, e) then Some(e.endpoint) else None)
      && (k in was ==> LastOther(was, peers, k) == if e.keepalive != was[k].keepalive then Some(e) else None)
  {
    var init, p := peers[..|peers| - 1], peers[|peers| - 1];
    if p.key == k {
      forall i | 0 <= i < |init| ensures init[i].key != k {
        assert init[i] == peers[i];
      }
      NextIsListed(init, k);
      NothingSent(was, init, 0, k);
      if k in was {
        OldKeepaliveSent(was, init, 0, k);
      }
    } else {
      OneEntry(was, init, k);
    }
  }

  lemma DistinctNeverMisconfigures(was: Table, peers: seq<Peer>, k: Key, late: set<Key>)
    requires DistinctKeys(peers) && k in Next(peers)
    ensures !Misconfigures(was, peers, k, late)
  {
    OneEntry(was, peers, k);
  }

  /** Without repeated keys the device always represents the new list, and only the
      endpoints the new list changed are touched. */
  lemma DiffReconfigures(d: Device, was: Table, peers: seq<Peer>, psk: string, self: Key, late: set<Key>, gone: seq<Key>)
    requires DistinctKeys(peers) && DisjointList(peers)
    requires Represents(d.peers, was, psk, late)
    requires Enumerates(gone, was.Keys - Next(peers).Keys)
    ensures var dev := Run(d, Updates(was, peers, psk, self) + Removals(gone)).peers;
            && Represents(dev, Next(peers), psk, late + (set k | k in DeferredKeys(was, peers, self)))
            && forall k :: k in dev ==> dev[k].endpoint == EndpointAfter(d.peers, was, Next(peers)[k])
  {
    Apart(peers);
    forall k | k in Next(peers) ensures !Misconfigures(was, peers, k, late) {
      DistinctNeverMisconfigures(was, peers, k, late);
    }
    DiffRepresents(d, was, peers, psk, self, late, gone);
    EndpointsAfter(d, was, peers, psk, self, late, gone);
  }

  lemma Apart(peers: seq<Peer>)
    requires DisjointList(peers)
    ensures ApartList(peers)
  {
  }

  lemma EndpointsAfter(d: Device, was: Table, peers: seq<Peer>, psk: string, self: Key, late: set<Key>, gone: seq<Key>)
    requires DistinctKeys(peers) && ApartList(peers)
    requires Represents(d.peers, was, psk, late)
    requires Enumerates(gone, was.Keys - Next(peers).Keys)
    ensures var dev := Run(d, Updates(was, peers, psk, self) + Removals(gone)).peers;
      forall k :: k in dev ==> k in Next(peers) && dev[k].endpoint == EndpointAfter(d.peers, was, Next(peers)[k])
  {
    AfterScript(d, was, peers, psk, self, late, gone);
    forall k | k in Next(peers)
      ensures Or(EndpointSent(was, peers, k), Base(d.peers, k).endpoint) == EndpointAfter(d.peers, was, Next(peers)[k])
    {
      NextIsListed(peers, k);
      OneEntry(was, peers, k);
    }
  }

  /** The same device state as a configuration from scratch, but for learned
      endpoints and keepalives not yet on. */
  lemma DiffRefinesFullConfiguration(
      d: Device, was: Table, peers: seq<Peer>, psk: string, self: Key, late: set<Key>, gone: seq<Key>)
    requires DistinctKeys(peers) && DisjointList(peers)
    requires Represents(d.peers, was, psk, late)
    requires Enumerates(gone, was.Keys - Next(peers).Keys)
    ensures var dev := Run(d, Updates(was, peers, psk, self) + Removals(gone)).peers;
            var full := Run(Device(map[], Nowhere), Updates(map[], peers, psk, self)).peers;
            && dev.Keys == full.Keys
            && forall k :: k in dev ==>
                 dev[k].psk == full[k].psk && dev[k].allowed == full[k].allowed
                 && (dev[k].keepalive == full[k].keepalive || dev[k].keepalive == 0 || full[k].keepalive == 0)
  {
    DiffReconfigures(d, was, peers, psk, self, late, gone);
    var empty := Device(map[], Nowhere);
    DiffReconfigures(empty, map[], peers, psk, self, {}, []);
    RunAppend(empty, Updates(map[], peers, psk, self), []);
    assert Updates(map[], peers, psk, self) + Removals([]) == Updates(map[], peers, psk, self);
  }

  /** Nothing is sent exactly when the device already matches the list: then
      keeping the old table (as SetPeers does) loses nothing the device knows. */
  lemma {:induction false} EmptyDiff(was: Table, peers: seq<Peer>, psk: string, self: Key)
    ensures Updates(was, peers, psk, self) == [] <==> forall p :: p in peers ==> Unchanged(was, p)
  {
    if peers != [] {
      var init, last := peers[..|peers| - 1], peers[|peers| - 1];
      EmptyDiff(was, init, psk, self);
      assert peers == init + [last];
      assert Unchanged(was, last) <==> PeerLines(was, last, psk, self) == [];
    }
  }

  /** A member list may repeat a key, for nothing that verifies it compares keys:
      if the last entry of an old key is as before and the one before it is not,
      the device is left with the other entry's networks while the table has the
      last one's, and no later list of the same entries mends it. */
  lemma RepeatedKeyMisconfigures(d: Device, was: Table, other: Peer, same: Peer, psk: string, self: Key, late: set<Key>)
    requires Represents(d.peers, was, psk, late) && was.Keys == {same.key}
    requires other.key == same.key && Unchanged(was, same) && other.Allowed() != same.Allowed()
    ensures var dev := Run(d, Updates(was, [other, same], psk, self)).peers;
      Next([other, same]) == map[same.key := same] && same.key in dev && dev[same.key].allowed == other.Allowed()
    ensures Updates(map[same.key := same], [same], psk, self) == []
  {
    var list, k := [other, same], same.key;
    assert list[..|list| - 1] == [other] && [other][..0] == [];
    assert Next([other]) == map[k := other];
    assert Next(list) == Next([other])[k := same] == map[k := same];
    assert Unchanged(was, other) ==> other.Allowed() == same.Allowed();
    assert LastSent(was, [other], k) == Some(other) && LastSent(was, list, k) == Some(other);
    AfterScript(d, was, list, psk, self, late, []);
    RunAppend(d, Updates(was, list, psk, self), []);
    assert Updates(was, list, psk, self) + Removals([]) == Updates(was, list, psk, self);
    assert [same][..0] == [];
  }
}
