/** internal/node/node.go (apply, roomFromConfig) and internal/node/gossip.go:
    what one node keeps of signed room configs. */
module Gossip {
  import opened Common

  type NodeId = nat
  type RoomId = nat
  type Key = nat

  /** A controller, or a local room's stand-in for one; "" is a static room. */
  datatype Url = Url(name: string, local: bool)

  /** members: their addresses; admins: which of them are; wellFormed: the checks
      VerifyRoomConfig makes of the content alone. */
  datatype Config = Config(
    room: RoomId, version: int, secret: nat, members: map<NodeId, nat>, admins: set<NodeId>, wellFormed: bool)
  {
    function AdminAddrs(): set<nat>
    {
      set m | m in members && m in admins :: members[m]
    }
  }

  datatype Signed = Signed(payload: Config, sig: nat)

  /** The signatures that exist; whatever is not here does not verify. */
  type Signatures = set<(Key, Signed)>

  datatype RoomState = RoomState(room: RoomId, active: bool, config: Option<Signed>)

  type NetMap = seq<RoomState>

  datatype Layout = Layout(secret: nat, addr: nat)

  datatype Running = Running(url: Url, layout: Layout)

  datatype State = State(
    versions: map<RoomId, int>, signed: map<RoomId, Signed>, last: map<Url, NetMap>, rooms: map<RoomId, Running>,
    members: map<RoomId, set<NodeId>>, admins: map<RoomId, set<nat>>)

  const EMPTY := State(map[], map[], map[], map[], map[], map[])

  /** What apply reads besides the netmap: this node, its state file, the
      signatures in existence and which interfaces can be brought up. */
  datatype Env = Env(me: NodeId, pinned: map<(Url, RoomId), Key>, off: set<RoomId>, valid: Signatures, startable: set<RoomId>)

  function Version(s: State, room: RoomId): int
  {
    if room in s.versions then s.versions[room] else 0
  }

  predicate Accepts(s: State, env: Env, key: Key, room: RoomId, c: Signed)
  {
    (key, c) in env.valid && c.payload.wellFormed && c.payload.room == room && c.payload.version >= Version(s, room)
  }

  /** The bookkeeping of roomFromConfig for a config it accepts. */
  function Record(s: State, room: RoomId, c: Signed): State
  {
    s.(signed := if c.payload.version > Version(s, room) || room !in s.signed then s.signed[room := c] else s.signed,
       versions := s.versions[room := c.payload.version],
       members := s.members[room := c.payload.members.Keys],
       admins := s.admins[room := c.payload.AdminAddrs()])
  }

  /** Walking the netmap: the new state and the rooms that should run. */
  datatype Scan = Scan(state: State, desired: map<RoomId, Layout>)

  function KeepRunning(sc: Scan, room: RoomId): Scan
  {
    if room in sc.state.rooms then sc.(desired := sc.desired[room := sc.state.rooms[room].layout]) else sc
  }

  function ScanOne(sc: Scan, url: Url, rs: RoomState, env: Env): Scan
  {
    if (url, rs.room) !in env.pinned || rs.room in env.off then sc
    else if rs.active && rs.config.None? && url.local then KeepRunning(sc, rs.room)
    else if !rs.active || rs.config.None? then sc
    else
      var c := rs.config.value;
      if !Accepts(sc.state, env, env.pinned[(url, rs.room)], rs.room, c) then KeepRunning(sc, rs.room)
      else
        var t := Record(sc.state, rs.room, c);
        if env.me in c.payload.members
        then Scan(t, sc.desired[rs.room := Layout(c.payload.secret, c.payload.members[env.me])])
        else Scan(t, sc.desired)
  }

  function ScanAll(s: State, url: Url, nm: NetMap, env: Env): Scan
  {
    if nm == [] then Scan(s, map[])
    else ScanOne(ScanAll(s, url, nm[..|nm| - 1], env), url, nm[|nm| - 1], env)
  }

  predicate Stays(s: State, url: Url, desired: map<RoomId, Layout>, room: RoomId)
  {
    room in s.rooms
    && if room in desired then s.rooms[room].layout == desired[room] else s.rooms[room].url != url
  }

  /** Rooms of this controller that are gone stop; wanted ones start unless
      they run already with the same secret and address. */
  function Settled(s: State, url: Url, desired: map<RoomId, Layout>, startable: set<RoomId>): map<RoomId, Running>
  {
    map r | r in s.rooms.Keys + desired.Keys && (Stays(s, url, desired, r) || (r in desired && r in startable)) ::
      if Stays(s, url, desired, r) then s.rooms[r] else Running(url, desired[r])
  }

  predicate Same(now: map<RoomId, Running>, was: map<RoomId, Running>, r: RoomId)
  {
    (r in now <==> r in was) && (r in now ==> now[r] == was[r])
  }

  predicate Started(now: map<RoomId, Running>, was: map<RoomId, Running>, url: Url, l: Layout, startable: set<RoomId>, r: RoomId)
  {
    if r in was && was[r].layout == l then r in now && now[r] == was[r]
    else (r in now <==> r in startable) && (r in now ==> now[r] == Running(url, l))
  }

  function Applied(s: State, url: Url, nm: NetMap, env: Env): State
  {
    var sc := ScanAll(s.(last := s.last[url := nm]), url, nm, env);
    sc.state.(rooms := Settled(sc.state, url, sc.desired, env.startable))
  }

  /** The netmap applyGossip makes of the last one and a peer's config. */
  function Spliced(nm: NetMap, room: RoomId, c: Signed): NetMap
  {
    seq(|nm|, i requires 0 <= i < |nm| => if nm[i].room == room then RoomState(room, true, Some(c)) else nm[i])
  }

  predicate Lists(nm: NetMap, room: RoomId)
  {
    exists i :: 0 <= i < |nm| && nm[i].room == room
  }

  /** The first half of applyGossip: what it will apply, if anything. */
  function GossipTask(s: State, room: RoomId, c: Signed): Option<(Url, NetMap)>
  {
    if room !in s.rooms || s.rooms[room].url.name == "" then None
    else
      var url := s.rooms[room].url;
      if url !in s.last || !Lists(s.last[url], room) then None
      else Some((url, Spliced(s.last[url], room, c)))
  }

  class Node {
    var versions: map<RoomId, int>
    var signed: map<RoomId, Signed>
    var last: map<Url, NetMap>
    var rooms: map<RoomId, Running>
    var members: map<RoomId, set<NodeId>>
    var admins: map<RoomId, set<nat>>

    ghost function Abstract(): State
      reads this
    {
      State(versions, signed, last, rooms, members, admins)
    }

    constructor ()
      ensures Abstract() == EMPTY
    {
      versions, signed, last := map[], map[], map[];
      rooms, members, admins := map[], map[], map[];
    }

    /** None is an error; else the layout, if this node is a member. */
    method RoomFromConfig(key: Key, room: RoomId, c: Signed, env: Env) returns (r: Option<Option<Layout>>)
      modifies this`versions, this`signed, this`members, this`admins
      ensures r.None? <==> !Accepts(old(Abstract()), env, key, room, c)
      ensures r.None? ==> Abstract() == old(Abstract())
      ensures r.Some? ==> Abstract() == Record(old(Abstract()), room, c)
      ensures r.Some? ==> r.value == if env.me in c.payload.members
                                     then Some(Layout(c.payload.secret, c.payload.members[env.me])) else None
    {
      if (key, c) !in env.valid || !c.payload.wellFormed {
        return None;
      }
      var cfg := c.payload;
      if cfg.room != room {
        return None;
      }
      var current := if room in versions then versions[room] else 0;
      if cfg.version < current {
        return None;
      }
      if cfg.version > current || room !in signed {
        signed := signed[room := c];
      }
      versions := versions[room := cfg.version];
      var ids := RecordMembers(room, cfg);
      if env.me !in cfg.members {
        return Some(None);
      }
      return Some(Some(Layout(cfg.secret, cfg.members[env.me])));
    }

    /** The loop over the members of a config. */
    method RecordMembers(room: RoomId, cfg: Config) returns (ids: set<NodeId>)
      modifies this`members, this`admins
      ensures ids == cfg.members.Keys && members == old(members)[room := ids]
      ensures admins == old(admins)[room := cfg.AdminAddrs()]
    {
      ids := {};
      var addrs: set<nat> := {};
      var todo := cfg.members.Keys;
      while todo != {}
        invariant todo <= cfg.members.Keys && ids == cfg.members.Keys - todo
        invariant addrs == set m | m in ids && m in cfg.admins :: cfg.members[m]
        decreases todo
      {
        var m :| m in todo;
        todo := todo - {m};
        ids := ids + {m};
        if m in cfg.admins {
          addrs := addrs + {cfg.members[m]};
        }
      }
      assert addrs == cfg.AdminAddrs();
      members, admins := members[room := ids], admins[room := addrs];
    }

    method Apply(url: Url, nm: NetMap, env: Env)
      modifies this
      ensures Abstract() == Applied(old(Abstract()), url, nm, env)
    {
      last := last[url := nm];
      ghost var s := Abstract();
      var desired: map<RoomId, Layout> := map[];
      for i := 0 to |nm|
        invariant Scan(Abstract(), desired) == ScanAll(s, url, nm[..i], env)
      {
        var rs := nm[i];
        assert nm[..i + 1][..i] == nm[..i];
        if (url, rs.room) !in env.pinned || rs.room in env.off {
          continue;
        }
        if rs.active && rs.config.None? && url.local {
          if rs.room in rooms {
            desired := desired[rs.room := rooms[rs.room].layout];
          }
          continue;
        }
        if !rs.active || rs.config.None? {
          continue;
        }
        var rc := RoomFromConfig(env.pinned[(url, rs.room)], rs.room, rs.config.value, env);
        if rc.None? {
          if rs.room in rooms {
            desired := desired[rs.room := rooms[rs.room].layout];
          }
        } else if rc.value.Some? {
          desired := desired[rs.room := rc.value.value];
        }
      }
      assert nm[..|nm|] == nm;
      SettleRooms(url, desired, env.startable);
    }

    /** The loop that stops rooms this controller no longer has. */
    method StopRooms(url: Url, desired: map<RoomId, Layout>)
      modifies this`rooms
      ensures rooms == map r | r in old(rooms) && (r in desired || old(rooms)[r].url != url) :: old(rooms)[r]
    {
      ghost var was := rooms;
      var todo := rooms.Keys;
      while todo != {}
        invariant todo <= was.Keys
        invariant rooms == map r | r in was && (r in todo || r in desired || was[r].url != url) :: was[r]
        decreases todo
      {
        var r :| r in todo;
        todo := todo - {r};
        if rooms[r].url == url && r !in desired {
          rooms := rooms - {r};
        }
      }
    }

    /** The loop that starts rooms, or leaves them as they are. */
    method StartRooms(url: Url, desired: map<RoomId, Layout>, startable: set<RoomId>)
      modifies this`rooms
      ensures forall r :: r !in desired ==> Same(rooms, old(rooms), r)
      ensures forall r :: r in desired ==> Started(rooms, old(rooms), url, desired[r], startable, r)
    {
      ghost var was := rooms;
      var todo := desired.Keys;
      while todo != {}
        invariant todo <= desired.Keys
        invariant forall r :: r !in desired || r in todo ==> Same(rooms, was, r)
        invariant forall r :: r in desired && r !in todo ==> Started(rooms, was, url, desired[r], startable, r)
        decreases todo
      {
        var r :| r in todo;
        assert Same(rooms, was, r);
        todo := todo - {r};
        if r !in rooms || rooms[r].layout != desired[r] {
          rooms := rooms - {r};
          if r in startable {
            rooms := rooms[r := Running(url, desired[r])];
          }
        }
      }
    }

    method SettleRooms(url: Url, desired: map<RoomId, Layout>, startable: set<RoomId>)
      modifies this`rooms
      ensures rooms == Settled(old(Abstract()), url, desired, startable)
    {
      ghost var s := Abstract();
      StopRooms(url, desired);
      ghost var kept := rooms;
      StartRooms(url, desired, startable);
      ghost var goal := Settled(s, url, desired, startable);
      forall r
        ensures r in rooms <==> r in goal
        ensures r in rooms ==> rooms[r] == goal[r]
      {
        if r in desired {
          assert Started(rooms, kept, url, desired[r], startable, r);
        } else {
          assert Same(rooms, kept, r);
        }
      }
    }

    /** applyGossip up to the point where it lets go of the lock. */
    method TakeGossip(room: RoomId, c: Signed) returns (task: Option<(Url, NetMap)>)
      ensures task == GossipTask(Abstract(), room, c)
    {
      if room !in rooms || rooms[room].url.name == "" {
        return None;
      }
      var url := rooms[room].url;
      if url !in last {
        return None;
      }
      var nm, found := last[url], false;
      for i := 0 to |nm|
        invariant |nm| == |last[url]|
        invariant forall j :: 0 <= j < i ==> nm[j] == Spliced(last[url], room, c)[j]
        invariant forall j :: i <= j < |nm| ==> nm[j] == last[url][j]
        invariant found <==> exists j :: 0 <= j < i && last[url][j].room == room
      {
        if nm[i].room == room {
          nm := nm[i := RoomState(room, true, Some(c))];
          found := true;
        }
      }
      if !found {
        return None;
      }
      assert nm == Spliced(last[url], room, c);
      return Some((url, nm));
    }
  }
}
