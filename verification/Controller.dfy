/** internal/store/store.go and internal/controller/service.go: transactions on
    the database, and the operations that run in them. */
module Controller {
  import opened Common
  import opened Ipv4
  import opened Hosts
  import opened Strings
  import opened ControllerDb
  import Hub
  import Runs = ControllerRuns

  /** A transaction: what it changes is its own until it is committed. */
  class Tx {
    var db: Db

    constructor (db: Db)
      ensures this.db == db
    {
      this.db := db;
    }

    method RoomByID(room: RoomId) returns (r: Option<Room>)
      ensures r == if room in db.rooms then Some(db.rooms[room]) else None
    {
      r := if room in db.rooms then Some(db.rooms[room]) else None;
    }

    method MemberOf(room: RoomId, node: NodeId) returns (m: Option<Member>)
      ensures m == if (room, node) in db.members then Some(db.members[(room, node)]) else None
    {
      m := if (room, node) in db.members then Some(db.members[(room, node)]) else None;
    }

    method UpsertNode(node: NodeId, offers: Node)
      modifies this
      ensures db == old(db).(nodes := old(db).nodes[node := offers])
    {
      db := db.(nodes := db.nodes[node := offers]);
    }

    /** UseInvite: looks the invite up and takes one use. */
    method UseInvite(room: RoomId, token: Token, now: int) returns (inv: Option<Invite>)
      modifies this
      ensures inv == if CanUse(old(db), room, token, now) then Some(old(db).invites[token]) else None
      ensures db == if inv.Some? then Spend(old(db), token) else old(db)
    {
      if !CanUse(db, room, token, now) {
        return None;
      }
      var row := db.invites[token];
      if row.usesLeft > 0 {
        db := db.(invites := db.invites[token := row.(usesLeft := row.usesLeft - 1)]);
      }
      return Some(row);
    }

    /** ListMembers, of any status; the addresses are all that matters here. */
    method ListMembers(room: RoomId) returns (ips: seq<Addr>)
      ensures |ips| == |NodesIn(db, room)| && Addresses(ips) == Taken(db, room)
    {
      ips := [];
      var left := NodesIn(db, room);
      while left != {}
        invariant left <= NodesIn(db, room)
        invariant |ips| + |left| == |NodesIn(db, room)|
        invariant forall a :: a in ips ==> a in Taken(db, room)
        invariant forall n :: n in NodesIn(db, room) && n !in left ==> db.members[(room, n)].ip in ips
        decreases |left|
      {
        var n :| n in left;
        assert (room, n) in db.members && db.members[(room, n)].ip in Taken(db, room);
        ips := ips + [db.members[(room, n)].ip];
        left := left - {n};
      }
      forall a | a in Taken(db, room) ensures a in ips {
        var k :| k in db.members && k.0 == room && db.members[k].ip == a;
        assert k == (room, k.1) && k.1 in NodesIn(db, room);
      }
    }

    /** AddMember: refused if the member is there or the address is taken. */
    method AddMember(room: RoomId, node: NodeId, m: Member) returns (ok: bool)
      modifies this
      ensures ok <==> (room, node) !in old(db).members && AddressFits(old(db), room, node, m.ip)
      ensures db == if ok then old(db).(members := old(db).members[(room, node) := m]) else old(db)
    {
      ok := (room, node) !in db.members && AddressFits(db, room, node, m.ip);
      if ok {
        db := db.(members := db.members[(room, node) := m]);
      }
    }

    /** UpdateMember: refused if the address is another's. */
    method UpdateMember(room: RoomId, node: NodeId, m: Member) returns (ok: bool)
      modifies this
      ensures ok <==> AddressFits(old(db), room, node, m.ip)
      ensures db == if ok && (room, node) in old(db).members
                    then old(db).(members := old(db).members[(room, node) := m]) else old(db)
    {
      ok := AddressFits(db, room, node, m.ip);
      if ok && (room, node) in db.members {
        db := db.(members := db.members[(room, node) := m]);
      }
    }

    method DeleteMember(room: RoomId, node: NodeId)
      modifies this
      ensures db == old(db).(members := old(db).members - {(room, node)})
    {
      db := db.(members := db.members - {(room, node)});
    }

    method Bump(room: RoomId)
      modifies this
      ensures db == BumpRoom(old(db), room)
    {
      db := BumpRoom(db, room);
    }

    method BumpVersion() returns (v: nat)
      modifies this
      ensures db == old(db).(version := old(db).version + 1) && v == db.version
    {
      v := db.version + 1;
      db := db.(version := v);
    }

    method CreateInvite(token: Token, inv: Invite) returns (ok: bool)
      modifies this
      ensures ok <==> token !in old(db).invites
      ensures db == if ok then old(db).(invites := old(db).invites[token := inv]) else old(db)
    {
      ok := token !in db.invites;
      if ok {
        db := db.(invites := db.invites[token := inv]);
      }
    }

    method RevokeInvite(room: RoomId, id: InviteId)
      modifies this
      ensures db == old(db).(invites := Revoked(old(db).invites, room, id))
    {
      db := db.(invites := Revoked(db.invites, room, id));
    }

    // ---- what the operations do in their transaction ----

    /** roomFor. */
    method Managed(u: User, room: RoomId) returns (r: Option<Room>, err: Error)
      ensures r == if RoomFor(db, u, room).None? then Some(db.rooms[room]) else None
      ensures r.None? ==> RoomFor(db, u, room) == Some(err)
    {
      err := NotFound;
      r := RoomByID(room);
      if r.Some? && !u.isAdmin && r.value.owner != u.id {
        return None, Forbidden;
      }
    }

    method Join(cfg: Config, req: JoinRequest, now: int) returns (j: Option<Joined>, err: Error)
      requires req.keysGiven
      modifies this
      ensures match ControllerDb.Join(cfg, old(db), req, now)
        case Done(d, v) => j == Some(v) && d == db.(version := db.version + 1)
        case Failed(e) => j.None? && err == e
    {
      err := Forbidden;
      var room := RoomByID(req.room);
      if room.None? {
        return None, Forbidden;
      }
      UpsertNode(req.node, req.offers);
      var m := MemberOf(req.room, req.node);
      if m.Some? {
        if m.value.status == Banned {
          return None, Forbidden;
        }
        return Some(Joined(m.value.status, None)), err;
      }
      UpsertIsIdle(cfg, old(db), req, now);
      j, err := Admit(cfg, req, now, room.value);
    }

    /** The rest of Join, for a node that is no member yet. */
    method Admit(cfg: Config, req: JoinRequest, now: int, room: Room) returns (j: Option<Joined>, err: Error)
      requires req.keysGiven && req.room in db.rooms && room == db.rooms[req.room]
      requires (req.room, req.node) !in db.members && req.node in db.nodes && db.nodes[req.node] == req.offers
      modifies this
      ensures match ControllerDb.Join(cfg, old(db), req, now)
        case Done(d, v) => j == Some(v) && d == db.(version := db.version + 1)
        case Failed(e) => j.None? && err == e
    {
      ghost var was := db;
      assert was.(nodes := was.nodes[req.node := req.offers]) == was;
      err := Forbidden;
      var inv := UseInvite(req.room, req.token, now);
      if inv.None? {
        return None, Forbidden;
      }
      assert NodesIn(db, req.room) == NodesIn(was, req.room) && Taken(db, req.room) == Taken(was, req.room);
      var members := ListMembers(req.room);
      if cfg.maxMembers > 0 && |members| >= cfg.maxMembers {
        return None, Forbidden;
      }
      var ip := AllocateIP(room.subnet, members);
      if ip.None? {
        return None, Invalid;
      }
      var status := if inv.value.autoApprove || room.autoJoin then Active else Pending;
      var ok := AddMember(req.room, req.node,
                          Member(CleanName(req.name, cfg.idText(req.node)), ip.value, status, [], false));
      if !ok {
        return None, Conflict;
      }
      Bump(req.room);
      return Some(Joined(status, Some(req.token))), err;
    }

    method Leave(room: RoomId, node: NodeId) returns (err: Option<Error>)
      modifies this
      ensures Settles(ControllerDb.Leave(old(db), room, node), db, err)
    {
      var m := MemberOf(room, node);
      if m.None? {
        return Some(NotFound);
      }
      if m.value.status == Banned {
        return None;
      }
      DeleteMember(room, node);
      Bump(room);
      return None;
    }

    method Act(u: User, room: RoomId, node: NodeId, act: Action) returns (err: Option<Error>)
      requires (room, node) in db.members ==> AddressFits(db, room, node, db.members[(room, node)].ip)
      modifies this
      ensures Settles(ControllerDb.Act(old(db), u, room, node, act), db, err)
    {
      var r, e := Managed(u, room);
      if r.None? {
        return Some(e);
      }
      var found := MemberOf(room, node);
      if found.None? {
        return Some(NotFound);
      }
      var m := found.value;
      var ok := true;
      var offers := Offers(db, node);
      match act {
        case Approve =>
          m := m.(status := Active);
          ok := UpdateMember(room, node, m);
        case Unban =>
          m := m.(status := Active);
          ok := UpdateMember(room, node, m);
        case Ban =>
          m := m.(status := Banned);
          ok := UpdateMember(room, node, m);
        case Kick =>
          DeleteMember(room, node);
        case Routes =>
          var routes := RoutesApart(offers.offered, r.value.subnet);
          if routes == [] {
            return Some(Invalid);
          }
          m := m.(routes := routes);
          ok := UpdateMember(room, node, m);
        case NoRoutes =>
          m := m.(routes := []);
          ok := UpdateMember(room, node, m);
        case Exit =>
          if !offers.exitOffered {
            return Some(Invalid);
          }
          m := m.(exit := true);
          ok := UpdateMember(room, node, m);
        case NoExit =>
          m := m.(exit := false);
          ok := UpdateMember(room, node, m);
      }
      assert ok;
      Bump(room);
      return None;
    }

    method Update(u: User, room: RoomId, node: NodeId, name: string, ip: Option<Addr>) returns (err: Option<Error>)
      requires GoodName(name)
      modifies this
      ensures Settles(ControllerDb.Update(old(db), u, room, node, name, ip), db, err)
    {
      var r, e := Managed(u, room);
      if r.None? {
        return Some(e);
      }
      var found := MemberOf(room, node);
      if found.None? {
        return Some(NotFound);
      }
      if ip.None? || !UsableHost(r.value.subnet, ip.value) {
        return Some(Invalid);
      }
      if ip.value != found.value.ip {
        var members := ListMembers(room);
        assert ip.value in members <==> ip.value in Addresses(members);
        if ip.value in members {
          return Some(Invalid);
        }
      }
      var ok := UpdateMember(room, node, found.value.(name := TrimSpace(name), ip := ip.value));
      if !ok {
        return Some(Conflict);
      }
      Bump(room);
      return None;
    }
  }

  /** Joining writes the node's row first; whether it is there already changes
      nothing. */
  lemma UpsertIsIdle(cfg: Config, db: Db, req: JoinRequest, now: int)
    ensures ControllerDb.Join(cfg, db.(nodes := db.nodes[req.node := req.offers]), req, now)
         == ControllerDb.Join(cfg, db, req, now)
  {
    var db1 := db.(nodes := db.nodes[req.node := req.offers]);
    assert db1.(nodes := db1.nodes[req.node := req.offers]) == db1;
  }

  /** A transaction that did this, before its version is bumped. */
  ghost predicate Settles(o: Outcome<()>, db: Db, err: Option<Error>)
  {
    match o
    case Done(d, _) => err.None? && d == db.(version := db.version + 1)
    case Failed(e) => err == Some(e)
  }

  /** The networks offered that do not overlap the room's own. */
  method RoutesApart(offered: seq<Prefix>, subnet: Prefix) returns (routes: seq<Prefix>)
    ensures routes == Apart(offered, subnet)
  {
    routes := [];
    for i := 0 to |offered|
      invariant routes == Apart(offered[..i], subnet)
    {
      assert offered[..i + 1][..i] == offered[..i];
      if !Overlaps(offered[i], subnet) {
        routes := routes + [offered[i]];
      }
    }
    assert offered[..|offered|] == offered;
  }

  class Service {
    const cfg: Config
    const hub: Hub.HubObject
    var db: Db

    constructor (cfg: Config, db: Db)
      requires Runs.Inv(db)
      ensures Valid() && InStep() && this.cfg == cfg && this.db == db && fresh(hub) && fresh(hub.changed)
    {
      this.cfg, this.db := cfg, db;
      hub := new Hub.HubObject(db.version);
    }

    /** The members of each room have different usable addresses. */
    ghost predicate Valid()
      reads this, hub, hub.changed
    {
      Runs.Inv(db) && hub.Valid()
    }

    /** Pollers that know the hub's version know the database's. */
    predicate InStep()
      reads this, hub
    {
      hub.version == db.version
    }

    /** What the hub knows once a commit has told it of its version, or nothing
        was committed. */
    ghost predicate Told(was: Hub.View, committed: bool)
      reads this, hub, hub.changed
    {
      hub.Abstract() == if committed then Hub.SetTo(was, db.version) else was
    }

    /** change: commits what a transaction did and wakes the pollers, or does
        neither. */
    method Change(tx: Tx, failed: Option<Error>)
      requires hub.Valid()
      modifies this`db, tx, hub, hub.changed
      ensures hub.Valid() && (hub.changed == old(hub.changed) || fresh(hub.changed))
      ensures db == if failed.None? then old(tx.db).(version := old(tx.db).version + 1) else old(db)
      ensures Told(old(hub.Abstract()), failed.None?)
      ensures failed.None? && old(hub.version) <= old(tx.db.version) ==> InStep() && old(hub.changed).closed
    {
      if failed.None? {
        var v := tx.BumpVersion();
        db := tx.db;
        hub.Set(v);
      }
    }

    method Join(req: JoinRequest, now: int) returns (j: Option<Joined>, err: Error)
      requires Valid()
      modifies this`db, hub, hub.changed
      ensures Valid() && Told(old(hub.Abstract()), j.Some?) && (old(InStep()) ==> InStep())
      ensures match ControllerDb.Join(cfg, old(db), req, now)
        case Done(d, v) => j == Some(v) && db == d
        case Failed(e) => j.None? && err == e && db == old(db)
    {
      if !req.keysGiven {
        return None, Invalid;
      }
      Runs.JoinKeeps(cfg, db, req, now);
      var tx := new Tx(db);
      j, err := tx.Join(cfg, req, now);
      Change(tx, if j.Some? then None else Some(err));
    }

    method Leave(room: RoomId, node: NodeId) returns (err: Option<Error>)
      requires Valid()
      modifies this`db, hub, hub.changed
      ensures Valid() && Told(old(hub.Abstract()), err.None?) && (old(InStep()) ==> InStep())
      ensures Ended(ControllerDb.Leave(old(db), room, node), old(db), db, err)
    {
      Runs.NextKeeps(cfg, db, Runs.Event(Runs.DoLeave(room, node), 0));
      var tx := new Tx(db);
      err := tx.Leave(room, node);
      Change(tx, err);
    }

    method MemberAction(u: User, room: RoomId, node: NodeId, act: Action) returns (err: Option<Error>)
      requires Valid()
      modifies this`db, hub, hub.changed
      ensures Valid() && Told(old(hub.Abstract()), err.None?) && (old(InStep()) ==> InStep())
      ensures Ended(ControllerDb.Act(old(db), u, room, node, act), old(db), db, err)
    {
      Runs.ActKeeps(db, u, room, node, act);
      if (room, node) in db.members {
        Runs.OwnAddressFits(db, room, node);
      }
      var tx := new Tx(db);
      err := tx.Act(u, room, node, act);
      Change(tx, err);
    }

    method UpdateMember(u: User, room: RoomId, node: NodeId, name: string, ip: Option<Addr>) returns (err: Option<Error>)
      requires Valid()
      modifies this`db, hub, hub.changed
      ensures Valid() && Told(old(hub.Abstract()), err.None?) && (old(InStep()) ==> InStep())
      ensures Ended(ControllerDb.Update(old(db), u, room, node, name, ip), old(db), db, err)
    {
      if !GoodName(name) {
        return Some(Invalid);
      }
      Runs.UpdateKeeps(db, u, room, node, name, ip);
      var tx := new Tx(db);
      err := tx.Update(u, room, node, name, ip);
      Change(tx, err);
    }

    method CreateInvite(u: User, room: RoomId, token: Token, id: InviteId, uses: int, ttl: int, auto: bool, now: int)
      returns (err: Option<Error>)
      requires Valid()
      modifies this`db, hub, hub.changed
      ensures Valid() && Told(old(hub.Abstract()), err.None?) && (old(InStep()) ==> InStep())
      ensures Ended(Issue(old(db), u, room, token, id, uses, ttl, auto, now), old(db), db, err)
    {
      if ttl <= 0 || ttl > YEAR {
        return Some(Invalid);
      }
      var left := if uses <= 0 then -1 else uses;
      var tx := new Tx(db);
      var r, e := tx.Managed(u, room);
      if r.None? {
        return Some(e);
      }
      var ok := tx.CreateInvite(token, Invite(id, room, left, now + ttl, auto));
      err := if ok then None else Some(Conflict);
      Change(tx, err);
    }

    method RevokeInvite(u: User, room: RoomId, id: InviteId) returns (err: Option<Error>)
      requires Valid()
      modifies this`db, hub, hub.changed
      ensures Valid() && Told(old(hub.Abstract()), err.None?) && (old(InStep()) ==> InStep())
      ensures Ended(Revoke(old(db), u, room, id), old(db), db, err)
    {
      var tx := new Tx(db);
      var r, e := tx.Managed(u, room);
      if r.None? {
        return Some(e);
      }
      tx.RevokeInvite(room, id);
      err := None;
      Change(tx, err);
    }
  }

  /** The database after an operation, and what it answers. */
  ghost predicate Ended(o: Outcome<()>, was: Db, db: Db, err: Option<Error>)
  {
    match o
    case Done(d, _) => err.None? && db == d
    case Failed(e) => err == Some(e) && db == was
  }
}
