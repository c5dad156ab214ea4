/** internal/room/room.go: SetPeers, the keepalive timers it starts, and what
    every interleaving of the two leaves in the device. */
module Room {
  import opened Common
  import opened Uapi
  import opened PeersDiff

  /** The room under its lock. wanted is the list last asked for: peers lags
      behind it when the difference is empty. timers are those not yet fired. */
  datatype State = State(peers: Table, wanted: Table, dev: Peers, timers: multiset<Key>, closed: bool)

  function Script(s: State, list: seq<Peer>, psk: string, self: Key, gone: seq<Key>): seq<Line>
  {
    Updates(s.peers, list, psk, self) + Removals(gone)
  }

  function AfterSetPeers(s: State, list: seq<Peer>, psk: string, self: Key, gone: seq<Key>): State
  {
    var script := Script(s, list, psk, self, gone);
    if script == [] then s.(wanted := Next(list))
    else
      s.(peers := Next(list), wanted := Next(list), dev := Run(Device(s.dev, Nowhere), script).peers,
         timers := s.timers + multiset(DeferredKeys(s.peers, list, self)))
  }

  lemma Rendered(s: State, list: seq<Peer>, psk: string, self: Key, gone: seq<Key>, uapi: seq<Line>, deferred: seq<Key>)
    requires uapi == Script(s, list, psk, self, gone) && deferred == DeferredKeys(s.peers, list, self)
    ensures AfterSetPeers(s, list, psk, self, gone)
         == if uapi == [] then s.(wanted := Next(list))
            else State(Next(list), Next(list), Run(Device(s.dev, Nowhere), uapi).peers, s.timers + multiset(deferred), s.closed)
  {
  }

  function AfterTimer(s: State, k: Key): State
  {
    var t := s.(timers := s.timers - multiset{k});
    if s.closed || k !in s.peers || s.peers[k].keepalive == 0 then t
    else t.(dev := Run(Device(s.dev, Nowhere), [PublicKey(k), UpdateOnly, Keepalive(s.peers[k].keepalive)]).peers)
  }

  class Room {
    const psk: string
    const self: Key
    var peers: Table
    ghost var wanted: Table
    var dev: Peers
    var timers: multiset<Key>
    var closed: bool

    ghost function View(): State
      reads this
    {
      State(peers, wanted, dev, timers, closed)
    }

    constructor (psk: string, self: Key)
      ensures this.psk == psk && this.self == self && View() == State(map[], map[], map[], multiset{}, false)
    {
      this.psk, this.self := psk, self;
      peers, wanted, dev, timers, closed := map[], map[], map[], multiset{}, false;
    }

    /** time.AfterFunc for every deferred key. */
    method StartTimers(deferred: seq<Key>)
      modifies this`timers
      ensures timers == old(timers) + multiset(deferred)
    {
      for i := 0 to |deferred|
        invariant timers == old(timers) + multiset(deferred[..i])
      {
        assert deferred[..i + 1] == deferred[..i] + [deferred[i]];
        timers := timers + multiset{deferred[i]};
      }
      assert deferred[..|deferred|] == deferred;
    }

    method SetPeers(list: seq<Peer>)
      modifies this
      ensures exists gone :: Enumerates(gone, old(peers).Keys - Next(list).Keys)
                             && View() == AfterSetPeers(old(View()), list, psk, self, gone)
    {
      var uapi, next, deferred := Diff(peers, list, psk, self);
      ghost var gone :| Enumerates(gone, peers.Keys - next.Keys) && uapi == Script(View(), list, psk, self, gone);
      Rendered(View(), list, psk, self, gone, uapi, deferred);
      Push(uapi, next, deferred);
    }

    /** What was rendered goes to the device; if nothing was, the old table stays. */
    method Push(uapi: seq<Line>, next: Table, deferred: seq<Key>)
      modifies this
      ensures View() == if uapi == [] then old(View()).(wanted := next)
                        else State(next, next, Run(Device(old(dev), Nowhere), uapi).peers,
                                   old(timers) + multiset(deferred), old(closed))
    {
      wanted := next;
      if uapi != [] {
        dev := Run(Device(dev, Nowhere), uapi).peers;
        peers := next;
        StartTimers(deferred);
      }
    }

    /** The body of a timer that has fired for k. */
    method EnableKeepalive(k: Key)
      requires k in timers
      modifies this
      ensures View() == AfterTimer(old(View()), k)
    {
      timers := timers - multiset{k};
      if closed || k !in peers || peers[k].keepalive == 0 {
        return;
      }
      dev := Run(Device(dev, Nowhere), [PublicKey(k), UpdateOnly, Keepalive(peers[k].keepalive)]).peers;
    }
  }

  // ---- every interleaving ----

  datatype Step =
    | SetPeers(list: seq<Peer>, gone: seq<Key>)
    | Timer(key: Key)
    | Roam(key: Key, endpoint: string)  // the device learned a new endpoint
    | Close

  /** The list can be rendered: different keys list different networks, and the
      keys the old table loses are removed in some order. */
  ghost predicate Renders(s: State, list: seq<Peer>, gone: seq<Key>)
  {
    ApartList(list) && Enumerates(gone, s.peers.Keys - Next(list).Keys)
  }

  /** No peer is left with what an earlier entry of its key set. */
  ghost predicate Clean(s: State, list: seq<Peer>)
  {
    forall k :: k in Next(list) ==> !Misconfigures(s.peers, list, k, Late(s))
  }

  ghost predicate Legal(s: State, step: Step)
  {
    match step
    case SetPeers(list, gone) => Renders(s, list, gone) && Clean(s, list)
    case Timer(k) => k in s.timers
    case _ => true
  }

  function After(s: State, step: Step, psk: string, self: Key): State
  {
    match step
    case SetPeers(list, gone) => AfterSetPeers(s, list, psk, self, gone)
    case Timer(k) => AfterTimer(s, k)
    case Roam(k, e) => if k in s.dev then s.(dev := s.dev[k := s.dev[k].(endpoint := e)]) else s
    case Close => s.(closed := true)
  }

  ghost predicate Runs(s: State, steps: seq<Step>, psk: string, self: Key, end: State)
    decreases steps
  {
    if steps == [] then end == s
    else Legal(s, steps[0]) && Runs(After(s, steps[0], psk, self), steps[1..], psk, self, end)
  }

  const START := State(map[], map[], map[], multiset{}, false)

  function Late(s: State): set<Key>
  {
    set k | k in s.timers
  }

  /** The device is configured from the list last asked for, except that a
      keepalive may still be 0 while a timer for its key is pending. */
  ghost predicate Configured(s: State, psk: string)
  {
    !s.closed ==>
      Represents(s.dev, s.wanted, psk, Late(s)) && Represents(s.dev, s.peers, psk, Late(s))
      && forall k :: k in s.peers ==> k in s.wanted && s.peers[k].keepalive == s.wanted[k].keepalive
  }

  lemma EmptyScript(s: State, list: seq<Peer>, psk: string, self: Key, gone: seq<Key>)
    requires Renders(s, list, gone) && Script(s, list, psk, self, gone) == []
    requires Represents(s.dev, s.peers, psk, Late(s))
    ensures Represents(s.dev, Next(list), psk, Late(s))
    ensures forall k :: k in s.peers ==> k in Next(list) && s.peers[k].keepalive == Next(list)[k].keepalive
  {
    EmptyDiff(s.peers, list, psk, self);
    assert gone == [];
    forall k | k in Next(list)
      ensures k in s.peers && Next(list)[k].Allowed() == s.peers[k].Allowed() && Next(list)[k].keepalive == s.peers[k].keepalive
    {
      NextIsListed(list, k);
      assert Unchanged(s.peers, Next(list)[k]);
    }
    forall k | k in s.peers
      ensures k in Next(list)
    {
      assert k !in gone;
    }
    assert s.dev.Keys == Next(list).Keys;
  }

  lemma {:induction false} UnchangedIsClean(was: Table, list: seq<Peer>, k: Key)
    requires k in was && forall p :: p in list ==> Unchanged(was, p)
    ensures LastSent(was, list, k).None? && LastOther(was, list, k).None?
  {
    if list != [] {
      var init := list[..|list| - 1];
      assert list[|list| - 1] in list && forall p :: p in init ==> p in list;
      UnchangedIsClean(was, init, k);
    }
  }

  lemma EmptyScriptIsClean(s: State, list: seq<Peer>, psk: string, self: Key, gone: seq<Key>)
    requires Script(s, list, psk, self, gone) == []
    ensures Clean(s, list)
  {
    EmptyDiff(s.peers, list, psk, self);
    forall k | k in Next(list) && k in s.peers ensures !Misconfigures(s.peers, list, k, Late(s)) {
      UnchangedIsClean(s.peers, list, k);
    }
  }

  lemma TimerLines(dev: Peers, k: Key, n: nat)
    requires k in dev
    ensures Run(Device(dev, Nowhere), [PublicKey(k), UpdateOnly, Keepalive(n)]).peers == dev[k := dev[k].(keepalive := n)]
  {
    var d := Device(dev, Nowhere);
    assert [PublicKey(k), UpdateOnly, Keepalive(n)] == [PublicKey(k)] + [UpdateOnly] + [Keepalive(n)];
    RunAppend(d, [PublicKey(k)] + [UpdateOnly], [Keepalive(n)]);
    RunAppend(d, [PublicKey(k)], [UpdateOnly]);
    RunOne(d, PublicKey(k));
    RunOne(Exec(d, PublicKey(k)), UpdateOnly);
    RunOne(Exec(d, PublicKey(k)), Keepalive(n));
  }

  /** One call leaves the device configured from the list exactly if no peer is
      left with what an earlier entry of its key set. */
  lemma SetPeersConfigures(s: State, list: seq<Peer>, psk: string, self: Key, gone: seq<Key>)
    requires Represents(s.dev, s.peers, psk, Late(s)) && Renders(s, list, gone) && !s.closed
    ensures Configured(AfterSetPeers(s, list, psk, self, gone), psk) <==> Clean(s, list)
  {
    var t := AfterSetPeers(s, list, psk, self, gone);
    if Script(s, list, psk, self, gone) == [] {
      EmptyScript(s, list, psk, self, gone);
      EmptyScriptIsClean(s, list, psk, self, gone);
      assert Late(t) == Late(s);
    } else {
      DiffRepresents(Device(s.dev, Nowhere), s.peers, list, psk, self, Late(s), gone);
      assert Late(t) == Late(s) + set k | k in DeferredKeys(s.peers, list, self);
    }
  }

  /** Lists without repeated keys and networks are always fine. */
  lemma DistinctIsLegal(s: State, list: seq<Peer>, gone: seq<Key>)
    requires DistinctKeys(list) && DisjointList(list) && Enumerates(gone, s.peers.Keys - Next(list).Keys)
    ensures Legal(s, SetPeers(list, gone))
  {
    forall k | k in Next(list) ensures !Misconfigures(s.peers, list, k, Late(s)) {
      DistinctNeverMisconfigures(s.peers, list, k, Late(s));
    }
  }

  lemma TimerKeeps(s: State, peers: Table, k: Key, psk: string)
    requires Represents(s.dev, s.peers, psk, Late(s)) && Represents(s.dev, peers, psk, Late(s)) && !s.closed
    requires k in s.peers ==> s.peers[k].keepalive == peers[k].keepalive
    ensures Represents(AfterTimer(s, k).dev, peers, psk, Late(AfterTimer(s, k)))
  {
    var t := AfterTimer(s, k);
    assert forall j :: j in Late(s) && j != k ==> j in Late(t);
    if k in s.peers {
      TimerLines(s.dev, k, s.peers[k].keepalive);
      assert t.dev[k].keepalive == peers[k].keepalive;
    }
  }

  lemma StepConfigures(s: State, step: Step, psk: string, self: Key)
    requires Configured(s, psk) && Legal(s, step)
    ensures Configured(After(s, step, psk, self), psk)
  {
    if s.closed { return; }
    match step
    case SetPeers(list, gone) =>
      SetPeersConfigures(s, list, psk, self, gone);
    case Timer(k) =>
      TimerKeeps(s, s.peers, k, psk);
      TimerKeeps(s, s.wanted, k, psk);
    case Roam(k, e) =>
      assert Late(After(s, step, psk, self)) == Late(s);
    case Close =>
  }

  /** In every interleaving of new lists, fired timers and roaming peers the
      device is configured from the last list, late keepalives aside. */
  lemma {:induction false} AlwaysConfigured(s: State, steps: seq<Step>, psk: string, self: Key, end: State)
    requires Configured(s, psk) && Runs(s, steps, psk, self, end)
    ensures Configured(end, psk)
    decreases steps
  {
    if steps != [] {
      StepConfigures(s, steps[0], psk, self);
      AlwaysConfigured(After(s, steps[0], psk, self), steps[1..], psk, self, end);
    }
  }

  /** Once every timer has fired, every keepalive is the configured one. */
  lemma KeepaliveAfterTimers(steps: seq<Step>, psk: string, self: Key, end: State)
    requires Runs(START, steps, psk, self, end) && !end.closed && end.timers == multiset{}
    ensures end.dev.Keys == end.wanted.Keys
    ensures forall k :: k in end.wanted ==> end.dev[k].keepalive == end.wanted[k].keepalive
                                            && end.dev[k].allowed == end.wanted[k].Allowed()
  {
    AlwaysConfigured(START, steps, psk, self, end);
    assert Late(end) == {};
  }
}
