/** internal/tunwrap/broadcast.go on top of the AmneziaWG device of
    internal/room/room.go: in whose name a broadcast can be sent. */
module BroadcastAuth {
  import opened Ipv4
  import opened Uapi
  import opened PeersDiff
  import opened Broadcast
  import Room

  /** Peer k has a network that holds the address. */
  predicate Covers(peers: Peers, k: Key, p: Prefix, a: Addr)
  {
    k in peers && p in peers[k].allowed && p.Contains(a)
  }

  /** The device takes packets with this source from peer k: of all networks that
      hold the address, a most specific one is k's. */
  ghost predicate TakesFrom(peers: Peers, a: Addr, k: Key)
  {
    exists p :: Covers(peers, k, p, a) && forall j, q :: Covers(peers, j, q, a) ==> q.bits <= p.bits
  }

  function Host(a: Addr): Prefix
  {
    Prefix(a, 32)
  }

  /** Networks are listed with one peer each. */
  ghost predicate ApartTable(t: Table)
  {
    forall k, j :: k in t && j in t && k != j ==> t[k].Allowed() !! t[j].Allowed()
  }

  lemma HostHolds(p: Prefix, a: Addr)
    ensures Host(a).Contains(a) && Host(a).Masked() == Host(a)
    ensures p.bits == 32 && p.Contains(a) ==> p == Host(a)
  {
    assert Pow2(0) == 1;
  }

  /** If an address is listed for a peer on its own, the device takes packets from
      there from that peer and from no other. */
  lemma HostDecides(dev: Peers, t: Table, psk: string, late: set<Key>, a: Addr, j: Key, k: Key)
    requires Represents(dev, t, psk, late) && ApartTable(t)
    requires j in t && Host(a) in t[j].Allowed()
    ensures TakesFrom(dev, a, k) <==> k == j
  {
    HostHolds(Host(a), a);
    assert Covers(dev, j, Host(a), a);
    if TakesFrom(dev, a, k) {
      var p :| Covers(dev, k, p, a) && forall i, q :: Covers(dev, i, q, a) ==> q.bits <= p.bits;
      HostHolds(p, a);
      assert p in t[k].Allowed() && p in t[j].Allowed();
    }
  }

  // ---- in every run of a room ----

  lemma {:induction false} NextIsApart(list: seq<Peer>)
    requires ApartList(list)
    ensures ApartTable(Next(list))
  {
    forall k, j | k in Next(list) && j in Next(list) && k != j
      ensures Next(list)[k].Allowed() !! Next(list)[j].Allowed()
    {
      NextIsListed(list, k);
      NextIsListed(list, j);
    }
  }

  lemma {:induction false} WantedIsApart(s: Room.State, steps: seq<Room.Step>, psk: string, self: Key, end: Room.State)
    requires ApartTable(s.wanted) && Room.Runs(s, steps, psk, self, end)
    ensures ApartTable(end.wanted)
    decreases steps
  {
    if steps != [] {
      if steps[0].SetPeers? {
        NextIsApart(steps[0].list);
      }
      WantedIsApart(Room.After(s, steps[0], psk, self), steps[1..], psk, self, end);
    }
  }

  /** After any run of lists, timers and roaming peers the device takes a listed
      member's address from that member and from nobody else. */
  lemma MembersAreThemselves(steps: seq<Room.Step>, psk: string, self: Key, end: Room.State, a: Addr, j: Key, k: Key)
    requires Room.Runs(Room.START, steps, psk, self, end) && !end.closed
    requires j in end.wanted && Host(a) in end.wanted[j].Allowed()
    ensures TakesFrom(end.dev, a, k) <==> k == j
  {
    Room.AlwaysConfigured(Room.START, steps, psk, self, end);
    WantedIsApart(Room.START, steps, psk, self, end);
    HostDecides(end.dev, end.wanted, psk, Room.Late(end), a, j, k);
  }

  /** Whatever packet a peer gets through the tunnel, a broadcast that comes out of
      it with the address of a listed member is that member's. */
  lemma NobodyForges(
      steps: seq<Room.Step>, psk: string, self: Key, end: Room.State, m: Member, pkt: Bytes, j: Key, k: Key)
    requires Room.Runs(Room.START, steps, psk, self, end) && !end.closed
    requires |pkt| >= IP_HEADER && TakesFrom(end.dev, AddrAt(pkt, 12), k) && Unwrap(m, pkt).Inner?
    requires j in end.wanted && Host(AddrAt(Unwrap(m, pkt).pkt, 12)) in end.wanted[j].Allowed()
    ensures k == j
  {
    UnwrapAuthentic(m, pkt);
    MembersAreThemselves(steps, psk, self, end, AddrAt(pkt, 12), j, k);
  }

  /** And a broadcast that a listed member forwards is taken from peer k and comes
      out as it went in exactly if k is that member and the receiver's subnet and
      mode take it. */
  lemma MembersAreHeard(
      steps: seq<Room.Step>, psk: string, self: Key, end: Room.State,
      sender: Member, receiver: Member, pkt: Bytes, j: Key, k: Key)
    requires Room.Runs(Room.START, steps, psk, self, end) && !end.closed
    requires j in end.wanted && Host(sender.self) in end.wanted[j].Allowed() && sender.ShouldForward(pkt)
    ensures var wrapped := Wrapped(pkt, sender.self, receiver.self);
      TakesFrom(end.dev, AddrAt(wrapped, 12), k) && Unwrap(receiver, wrapped) == Inner(pkt)
      <==> k == j && receiver.mode != Off && receiver.subnet.Contains(sender.self) && Word(pkt, 2) == |pkt|
           && receiver.IsGroup(AddrAt(pkt, 16))
  {
    MembersAreThemselves(steps, psk, self, end, sender.self, j, k);
    WrapRoundTrip(sender, receiver, pkt);
    WrappedFields(pkt, sender.self, receiver.self);
  }
}
