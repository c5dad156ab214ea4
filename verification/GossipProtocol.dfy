/** Many nodes that poll controllers (which may answer with anything, however
    old or forged) and pass each other signed configs. */
module GossipProtocol {
  import opened Common
  import opened Gossip

  function Max(a: int, b: int): int
  {
    if a > b then a else b
  }

  // ---- one node ----

  /** What a node serves is the config whose version it holds, and somebody
      with a room key signed it. */
  ghost predicate Consistent(s: State, valid: Signatures)
  {
    s.signed.Keys == s.versions.Keys
    && forall r :: r in s.signed ==>
         s.signed[r].payload.version == s.versions[r] >= 0 && s.signed[r].payload.room == r
         && exists k :: (k, s.signed[r]) in valid
  }

  lemma {:induction false} ScanKeeps(s: State, url: Url, nm: NetMap, env: Env, valid: Signatures)
    requires Consistent(s, valid) && env.valid <= valid
    ensures var t := ScanAll(s, url, nm, env).state;
            && Consistent(t, valid) && t.last == s.last && t.rooms == s.rooms
            && forall r :: Version(s, r) <= Version(t, r)
  {
    if nm != [] {
      ScanKeeps(s, url, nm[..|nm| - 1], env, valid);
      var sc, rs := ScanAll(s, url, nm[..|nm| - 1], env), nm[|nm| - 1];
      if (url, rs.room) in env.pinned && rs.active && rs.config.Some?
         && Accepts(sc.state, env, env.pinned[(url, rs.room)], rs.room, rs.config.value) {
        RecordKeeps(sc.state, rs.room, rs.config.value, env.pinned[(url, rs.room)], valid);
      }
    }
  }

  lemma RecordKeeps(s: State, room: RoomId, c: Signed, key: Key, valid: Signatures)
    requires Consistent(s, valid) && (key, c) in valid && c.payload.room == room && c.payload.version >= Version(s, room)
    ensures var t := Record(s, room, c);
            Consistent(t, valid) && forall r :: Version(s, r) <= Version(t, r)
  {
    var t := Record(s, room, c);
    forall r | r in t.signed
      ensures r in t.versions && t.signed[r].payload.version == t.versions[r] >= 0 && t.signed[r].payload.room == r
              && exists k :: (k, t.signed[r]) in valid
    {
      if r != room { assert t.signed[r] == s.signed[r]; }
    }
  }

  lemma ApplyKeeps(s: State, url: Url, nm: NetMap, env: Env, valid: Signatures)
    requires Consistent(s, valid) && env.valid <= valid
    ensures var t := Applied(s, url, nm, env);
            Consistent(t, valid) && forall r :: Version(s, r) <= Version(t, r)
  {
    ScanKeeps(s.(last := s.last[url := nm]), url, nm, env, valid);
  }

  /** Whether a node that pins the room under url takes c for it. */
  predicate Trusts(env: Env, url: Url, room: RoomId, c: Signed)
  {
    (url, room) in env.pinned && room !in env.off
    && (env.pinned[(url, room)], c) in env.valid && c.payload.wellFormed && c.payload.room == room
  }

  lemma {:induction false} ScanSpliced(s: State, url: Url, nm: NetMap, env: Env, room: RoomId, c: Signed)
    requires forall i :: 0 <= i < |nm| && nm[i].room == room ==> nm[i] == RoomState(room, true, Some(c))
    ensures Version(ScanAll(s, url, nm, env).state, room)
            == if Lists(nm, room) && Trusts(env, url, room, c) then Max(Version(s, room), c.payload.version)
               else Version(s, room)
  {
    if nm != [] {
      var init, rs := nm[..|nm| - 1], nm[|nm| - 1];
      ScanSpliced(s, url, init, env, room, c);
      assert forall i :: 0 <= i < |init| ==> init[i] == nm[i];
      assert Lists(nm, room) <==> Lists(init, room) || rs.room == room;
    }
  }

  /** Applying a config from a peer, on whatever netmap it is spliced into,
      brings the node to exactly the newer of the two versions if the node
      trusts the config, and changes nothing about the room's version if not. */
  lemma GossipTakesNewer(s: State, url: Url, nm: NetMap, env: Env, room: RoomId, c: Signed)
    requires Lists(nm, room)
    ensures Version(Applied(s, url, Spliced(nm, room, c), env), room)
            == if Trusts(env, url, room, c) then Max(Version(s, room), c.payload.version) else Version(s, room)
  {
    var sp := Spliced(nm, room, c);
    var i :| 0 <= i < |nm| && nm[i].room == room;
    assert sp[i].room == room;
    ScanSpliced(s.(last := s.last[url := sp]), url, sp, env, room, c);
  }

  // ---- many nodes ----

  datatype Msg =
    | Announce(from: NodeId, room: RoomId, version: int)
    | Reply(from: NodeId, room: RoomId, config: Signed)

  /** disk: the signed configs of local rooms in the nodes' state files. */
  datatype World = World(nodes: map<NodeId, State>, valid: Signatures, msgs: set<Msg>, disk: map<(NodeId, RoomId), Signed>)

  /** Apply is a poll, a re-apply or a local change: any netmap at all. Fetch is
      the end of a fetch: a reply spliced into any netmap that lists the room,
      as the last one may have changed since it was read. Save writes a config of
      a local room to the state file, Restart forgets all that is in memory. */
  datatype Step =
    | Sign(key: Key, config: Signed)
    | Apply(node: NodeId, url: Url, nm: NetMap, env: Env)
    | Tell(node: NodeId, room: RoomId)
    | Serve(node: NodeId, room: RoomId)
    | Fetch(node: NodeId, url: Url, nm: NetMap, env: Env, from: NodeId, room: RoomId, config: Signed)
    | Save(node: NodeId, room: RoomId, config: Signed)
    | Restart(node: NodeId)

  ghost predicate Legal(w: World, step: Step)
  {
    match step
    case Sign(_, _) => true
    case Apply(n, _, _, env) => n in w.nodes && env.valid == w.valid
    case Tell(n, _) => n in w.nodes
    case Serve(n, room) => n in w.nodes && room in w.nodes[n].signed
    case Fetch(n, _, nm, env, from, room, c) =>
      n in w.nodes && env.valid == w.valid && Lists(nm, room) && Reply(from, room, c) in w.msgs
    case Save(n, room, c) => n in w.nodes && c.payload.room == room && exists k :: (k, c) in w.valid
    case Restart(n) => n in w.nodes
  }

  /** persistLocal: only a newer config is written. */
  function Saved(disk: map<(NodeId, RoomId), Signed>, n: NodeId, room: RoomId, c: Signed): map<(NodeId, RoomId), Signed>
  {
    if (n, room) in disk && disk[(n, room)].payload.version >= c.payload.version then disk else disk[(n, room) := c]
  }

  ghost function Next(w: World, step: Step): World
    requires Legal(w, step)
  {
    match step
    case Sign(k, c) => w.(valid := w.valid + {(k, c)})
    case Apply(n, url, nm, env) => w.(nodes := w.nodes[n := Applied(w.nodes[n], url, nm, env)])
    case Tell(n, room) => w.(msgs := w.msgs + {Announce(n, room, Version(w.nodes[n], room))})
    case Serve(n, room) => w.(msgs := w.msgs + {Reply(n, room, w.nodes[n].signed[room])})
    case Fetch(n, url, nm, env, _, room, c) =>
      w.(nodes := w.nodes[n := Applied(w.nodes[n], url, Spliced(nm, room, c), env)])
    case Save(n, room, c) => w.(disk := Saved(w.disk, n, room, c))
    case Restart(n) => w.(nodes := w.nodes[n := EMPTY])
  }

  ghost predicate Runs(w: World, steps: seq<Step>, end: World)
    decreases steps
  {
    if steps == [] then end == w
    else Legal(w, steps[0]) && Runs(Next(w, steps[0]), steps[1..], end)
  }

  /** A config on its way was signed, and is for the room it is sent for. */
  ghost predicate Sent(w: World, m: Msg)
  {
    m.from in w.nodes
    && (m.Reply? ==> m.config.payload.room == m.room && exists k :: (k, m.config) in w.valid)
  }

  ghost predicate Inv(w: World)
  {
    (forall n :: n in w.nodes ==> Consistent(w.nodes[n], w.valid))
    && (forall m :: m in w.msgs ==> Sent(w, m))
    && forall k :: k in w.disk ==> w.disk[k].payload.room == k.1
  }

  /** What is signed, sent and saved only grows. */
  ghost predicate Grows(w: World, w': World)
  {
    w'.nodes.Keys == w.nodes.Keys && w.valid <= w'.valid && w.msgs <= w'.msgs
    && forall k :: k in w.disk ==> k in w'.disk && w.disk[k].payload.version <= w'.disk[k].payload.version
  }

  /** The node is at no older version of any room. */
  ghost predicate NoOlder(w: World, w': World, n: NodeId)
    requires n in w.nodes
  {
    n in w'.nodes && forall r :: Version(w.nodes[n], r) <= Version(w'.nodes[n], r)
  }

  lemma StepKeeps(w: World, step: Step)
    requires Inv(w) && Legal(w, step)
    ensures Inv(Next(w, step)) && Grows(w, Next(w, step))
    ensures forall n :: n in w.nodes && step != Restart(n) ==> NoOlder(w, Next(w, step), n)
  {
    NodesStep(w, step);
    MessagesStep(w, step);
  }

  lemma NodesStep(w: World, step: Step)
    requires Inv(w) && Legal(w, step)
    ensures var w' := Next(w, step);
            (forall n :: n in w'.nodes ==> Consistent(w'.nodes[n], w'.valid))
            && w'.nodes.Keys == w.nodes.Keys
            && forall n :: n in w.nodes && step != Restart(n) ==> NoOlder(w, w', n)
  {
    var w' := Next(w, step);
    match step
    case Apply(n, url, nm, env) =>
      ApplyKeeps(w.nodes[n], url, nm, env, w.valid);
    case Fetch(n, url, nm, env, _, room, c) =>
      ApplyKeeps(w.nodes[n], url, Spliced(nm, room, c), env, w.valid);
    case _ =>
    forall n | n in w'.nodes
      ensures Consistent(w'.nodes[n], w'.valid)
    {
      assert Consistent(w'.nodes[n], w.valid);
    }
  }

  lemma MessagesStep(w: World, step: Step)
    requires Inv(w) && Legal(w, step)
    ensures var w' := Next(w, step);
            w.valid <= w'.valid && w.msgs <= w'.msgs && (forall m :: m in w'.msgs ==> Sent(w', m))
            && (forall k :: k in w'.disk ==> w'.disk[k].payload.room == k.1)
            && forall k :: k in w.disk ==> k in w'.disk && w.disk[k].payload.version <= w'.disk[k].payload.version
  {
    var w' := Next(w, step);
    forall m | m in w'.msgs
      ensures Sent(w', m)
    {
      if m in w.msgs { assert Sent(w, m); }
    }
  }

  /** A step takes a node back to an older version of a room exactly if it restarts
      a node that holds one. */
  lemma WhatRollsBack(w: World, step: Step, n: NodeId, room: RoomId)
    requires Inv(w) && Legal(w, step) && n in w.nodes
    ensures Version(Next(w, step).nodes[n], room) < Version(w.nodes[n], room)
       <==> step == Restart(n) && Version(w.nodes[n], room) > 0
  {
    StepKeeps(w, step);
    if step != Restart(n) {
      assert NoOlder(w, Next(w, step), n);
    }
  }

  predicate NeverRestarts(steps: seq<Step>, n: NodeId)
  {
    forall s :: s in steps ==> s != Restart(n)
  }

  /** No interleaving of signing, polling, re-applying and gossip takes a room
      of a node that does not restart back to an older version, or lets a node
      serve another version than the one it holds. */
  lemma {:induction false} NeverRollsBack(w: World, steps: seq<Step>, end: World)
    requires Inv(w) && Runs(w, steps, end)
    ensures Inv(end) && Grows(w, end)
    ensures forall n :: n in w.nodes && NeverRestarts(steps, n) ==> NoOlder(w, end, n)
    decreases steps
  {
    if steps != [] {
      var mid := Next(w, steps[0]);
      StepKeeps(w, steps[0]);
      NeverRollsBack(mid, steps[1..], end);
      forall n | n in w.nodes && NeverRestarts(steps, n) ensures NoOlder(w, end, n) {
        assert steps[0] in steps && forall s :: s in steps[1..] ==> s in steps;
        assert NoOlder(w, mid, n) && NoOlder(mid, end, n);
        forall r ensures Version(w.nodes[n], r) <= Version(end.nodes[n], r) {
          assert Version(w.nodes[n], r) <= Version(mid.nodes[n], r) <= Version(end.nodes[n], r);
        }
      }
    }
  }

  function Start(ids: set<NodeId>): World
  {
    World(map n | n in ids :: EMPTY, {}, {}, map[])
  }

  /** Every run of nodes that start empty. */
  lemma Reachable(ids: set<NodeId>, steps: seq<Step>, end: World)
    requires Runs(Start(ids), steps, end)
    ensures Inv(end)
  {
    NeverRollsBack(Start(ids), steps, end);
  }

  lemma ServesItsVersion(w: World, n: NodeId, room: RoomId)
    requires Inv(w) && Legal(w, Serve(n, room))
    ensures w.nodes[n].signed[room].payload.version == Version(w.nodes[n], room)
  {
    assert Consistent(w.nodes[n], w.valid);
  }

  /** What a node serves is at least what it announced before. */
  lemma ServesAnnounced(w0: World, from: NodeId, room: RoomId, steps: seq<Step>, w1: World)
    requires Inv(w0) && Legal(w0, Tell(from, room))
    requires Runs(Next(w0, Tell(from, room)), steps, w1) && NeverRestarts(steps, from) && Legal(w1, Serve(from, room))
    ensures w1.nodes[from].signed[room].payload.version >= Version(w0.nodes[from], room)
  {
    var told := Next(w0, Tell(from, room));
    StepKeeps(w0, Tell(from, room));
    NeverRollsBack(told, steps, w1);
    assert NoOlder(told, w1, from);
    ServesItsVersion(w1, from, room);
  }

  /** A node that hears an announce and then fetches ends up at least at the
      announced version, whatever happens before, between and to its netmap, even
      if it restarts; only the announcing node must not before it has served. */
  lemma FetchReachesAnnounced(
      w0: World, from: NodeId, room: RoomId, steps: seq<Step>, w1: World, w2: World, fetch: Step)
    requires Inv(w0) && Legal(w0, Tell(from, room))
    requires Runs(Next(w0, Tell(from, room)), steps, w1) && NeverRestarts(steps, from) && Legal(w1, Serve(from, room))
    requires fetch.Fetch? && fetch.room == room && fetch.config == w1.nodes[from].signed[room] && Legal(w2, fetch)
    ensures fetch.config.payload.version >= Version(w0.nodes[from], room)
    ensures Trusts(fetch.env, fetch.url, room, fetch.config) ==>
              Version(Next(w2, fetch).nodes[fetch.node], room) >= Version(w0.nodes[from], room)
  {
    ServesAnnounced(w0, from, room, steps, w1);
    GossipTakesNewer(w2.nodes[fetch.node], fetch.url, fetch.nm, fetch.env, room, fetch.config);
  }

  // ---- convergence ----

  /** Consecutive nodes on the path hear each other. */
  predicate Path(path: seq<NodeId>, hears: set<(NodeId, NodeId)>)
  {
    path != [] && forall i :: 0 <= i < |path| - 1 ==> (path[i], path[i + 1]) in hears
  }

  /** Everybody hears everybody, directly or through others. */
  ghost predicate Connected(nodes: set<NodeId>, hears: set<(NodeId, NodeId)>)
  {
    forall a, b :: a in nodes && b in nodes ==> exists p :: Path(p, hears) && p[0] == a && p[|p| - 1] == b
  }

  /** No announce is newer than what its receiver has. */
  predicate Quiet(w: World, hears: set<(NodeId, NodeId)>, room: RoomId)
  {
    forall e :: e in hears ==>
      e.0 in w.nodes && e.1 in w.nodes && Version(w.nodes[e.0], room) <= Version(w.nodes[e.1], room)
  }

  lemma {:induction false} AlongPath(w: World, p: seq<NodeId>, hears: set<(NodeId, NodeId)>, room: RoomId)
    requires Path(p, hears) && Quiet(w, hears, room) && p[0] in w.nodes
    ensures p[|p| - 1] in w.nodes && Version(w.nodes[p[0]], room) <= Version(w.nodes[p[|p| - 1]], room)
  {
    if |p| > 1 {
      assert (p[0], p[1]) in hears;
      assert Path(p[1..], hears) by {
        forall i | 0 <= i < |p| - 2 ensures (p[1..][i], p[1..][i + 1]) in hears { assert (p[i + 1], p[i + 2]) in hears; }
      }
      AlongPath(w, p[1..], hears, room);
    }
  }

  /** When gossip has nothing left to do, all nodes are at one version. */
  lemma QuietMeansAgreed(w: World, hears: set<(NodeId, NodeId)>, room: RoomId)
    requires Connected(w.nodes.Keys, hears) && Quiet(w, hears, room)
    ensures forall a, b :: a in w.nodes && b in w.nodes ==> Version(w.nodes[a], room) == Version(w.nodes[b], room)
  {
    forall a, b | a in w.nodes && b in w.nodes
      ensures Version(w.nodes[a], room) <= Version(w.nodes[b], room)
    {
      var p :| Path(p, hears) && p[0] == a && p[|p| - 1] == b;
      AlongPath(w, p, hears, room);
    }
  }

  /** How far the nodes are behind a version together. */
  function Behind(w: World, ids: seq<NodeId>, room: RoomId, top: int): int
    requires forall n :: n in ids ==> n in w.nodes
  {
    if ids == [] then 0 else top - Version(w.nodes[ids[0]], room) + Behind(w, ids[1..], room, top)
  }

  /** top is at least the newest version anybody has signed. */
  ghost predicate Newest(w: World, room: RoomId, top: int)
  {
    top >= 0 && forall k, c :: (k, c) in w.valid && c.payload.room == room ==> c.payload.version <= top
  }

  ghost predicate CatchesUp(w: World, step: Step, room: RoomId)
    requires Legal(w, step)
  {
    (step.Apply? || step.Fetch?) && Version(w.nodes[step.node], room) < Version(Next(w, step).nodes[step.node], room)
  }

  /** How many steps of the run bring a node a newer config of the room. */
  ghost function Catchups(w: World, steps: seq<Step>, end: World, room: RoomId): nat
    requires Runs(w, steps, end)
    decreases steps
  {
    if steps == [] then 0
    else
      (if CatchesUp(w, steps[0], room) then 1 else 0) + Catchups(Next(w, steps[0]), steps[1..], end, room)
  }

  lemma AtMostNewest(w: World, n: NodeId, room: RoomId, top: int)
    requires Inv(w) && Newest(w, room, top) && n in w.nodes
    ensures Version(w.nodes[n], room) <= top
  {
    assert Consistent(w.nodes[n], w.valid);
    if room in w.nodes[n].signed {
      var k :| (k, w.nodes[n].signed[room]) in w.valid;
    }
  }

  lemma {:induction false} BehindIsNatural(w: World, ids: seq<NodeId>, room: RoomId, top: int)
    requires Inv(w) && Newest(w, room, top) && forall n :: n in ids ==> n in w.nodes
    ensures Behind(w, ids, room, top) >= 0
  {
    if ids != [] {
      AtMostNewest(w, ids[0], room, top);
      BehindIsNatural(w, ids[1..], room, top);
    }
  }

  lemma {:induction false} BehindShrinks(w: World, w': World, ids: seq<NodeId>, room: RoomId, top: int)
    requires forall n :: n in ids ==> n in w.nodes && n in w'.nodes && NoOlder(w, w', n)
    ensures Behind(w', ids, room, top) <= Behind(w, ids, room, top)
    ensures (exists n :: n in ids && Version(w.nodes[n], room) < Version(w'.nodes[n], room)) ==>
              Behind(w', ids, room, top) < Behind(w, ids, room, top)
  {
    if ids != [] {
      assert ids[0] in w.nodes;
      BehindShrinks(w, w', ids[1..], room, top);
    }
  }

  /** Signing for another room, or no newer version of this one. */
  predicate SignsNothingNew(step: Step, room: RoomId, top: int)
  {
    step.Sign? ==> step.config.payload.room != room || step.config.payload.version <= top
  }

  /** Once nobody signs a newer version of the room or restarts any more, in
      whatever order polls and gossip go on, the newest version can be brought to
      the nodes in only so many steps: then the nodes change no more. */
  lemma {:induction false} GossipSettles(w: World, steps: seq<Step>, end: World, ids: seq<NodeId>, room: RoomId, top: int)
    requires Inv(w) && Newest(w, room, top) && Runs(w, steps, end)
    requires forall i :: 0 <= i < |steps| ==> SignsNothingNew(steps[i], room, top) && !steps[i].Restart?
    requires forall n :: n in ids <==> n in w.nodes
    ensures Catchups(w, steps, end, room) <= Behind(w, ids, room, top)
    decreases steps
  {
    if steps == [] {
      BehindIsNatural(w, ids, room, top);
    } else {
      var w' := Next(w, steps[0]);
      StepKeeps(w, steps[0]);
      BehindShrinks(w, w', ids, room, top);
      GossipSettles(w', steps[1..], end, ids, room, top);
    }
  }

  /** While some node is behind one it hears, serving and fetching is a step
      that brings it a newer config. */
  lemma BehindCatchesUp(w: World, from: NodeId, to: NodeId, room: RoomId, url: Url, nm: NetMap, env: Env)
    requires Inv(w) && from in w.nodes && to in w.nodes && Lists(nm, room) && env.valid == w.valid
    requires 0 <= Version(w.nodes[to], room) < Version(w.nodes[from], room)
    requires room in w.nodes[from].signed ==> Trusts(env, url, room, w.nodes[from].signed[room])
    ensures Legal(w, Serve(from, room))
    ensures var w' := Next(w, Serve(from, room));
            var fetch := Fetch(to, url, nm, env, from, room, w.nodes[from].signed[room]);
            Legal(w', fetch) && CatchesUp(w', fetch, room)
            && Version(Next(w', fetch).nodes[to], room) == Version(w.nodes[from], room)
  {
    assert Consistent(w.nodes[from], w.valid);
    GossipTakesNewer(w.nodes[to], url, nm, env, room, w.nodes[from].signed[room]);
  }

  // ---- what a restart forgets ----

  function Listing(room: RoomId, c: Signed): NetMap
  {
    [RoomState(room, true, Some(c))]
  }

  /** A netmap that lists one room brings the node to the newer version. */
  lemma ListingTakesNewer(s: State, url: Url, env: Env, room: RoomId, c: Signed)
    ensures Version(Applied(s, url, Listing(room, c), env), room)
         == if Trusts(env, url, room, c) then Max(Version(s, room), c.payload.version) else Version(s, room)
  {
    var nm := Listing(room, c);
    assert nm[0].room == room && Lists(nm, room);
    assert Spliced(nm, room, c) == nm;
    GossipTakesNewer(s, url, nm, env, room, c);
  }

  /** A node refuses a config older than the one it holds, and takes it after a
      restart. */
  lemma RestartForgets(w: World, n: NodeId, url: Url, env: Env, room: RoomId, c: Signed)
    requires Inv(w) && n in w.nodes && env.valid == w.valid && Trusts(env, url, room, c)
    requires 0 <= c.payload.version < Version(w.nodes[n], room)
    ensures var older := Apply(n, url, Listing(room, c), env);
      Legal(w, older) && Version(Next(w, older).nodes[n], room) == Version(w.nodes[n], room)
      && Legal(Next(w, Restart(n)), older)
      && Version(Next(Next(w, Restart(n)), older).nodes[n], room) == c.payload.version
  {
    ListingTakesNewer(w.nodes[n], url, env, room, c);
    ListingTakesNewer(EMPTY, url, env, room, c);
  }

  /** A local room remembers what its state file holds: once that is applied again,
      as the node does when it starts, nothing older is taken, until it restarts
      the next time. */
  lemma LocalRoomsRemember(w: World, n: NodeId, url: Url, env: Env, room: RoomId, steps: seq<Step>, end: World)
    requires Inv(w) && Legal(w, Restart(n)) && (n, room) in w.disk && w.disk[(n, room)].payload.version >= 0
    requires env.valid == w.valid && Trusts(env, url, room, w.disk[(n, room)]) && NeverRestarts(steps, n)
    requires var load := Apply(n, url, Listing(room, w.disk[(n, room)]), env);
      Runs(Next(Next(w, Restart(n)), load), steps, end)
    ensures n in end.nodes && Version(end.nodes[n], room) >= w.disk[(n, room)].payload.version
  {
    var stored := w.disk[(n, room)];
    var load, up := Apply(n, url, Listing(room, stored), env), Next(w, Restart(n));
    StepKeeps(w, Restart(n));
    StepKeeps(up, load);
    ListingTakesNewer(EMPTY, url, env, room, stored);
    NeverRollsBack(Next(up, load), steps, end);
    assert NoOlder(Next(up, load), end, n);
  }
}
