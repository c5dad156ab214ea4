/** internal/store/store.go and internal/controller/service.go: what an operation
    of the controller makes of the database, as a function. */
module ControllerDb {
  import opened Common
  import opened Ipv4
  import opened Hosts
  import opened Strings

  type RoomId = nat
  type NodeId = nat
  type UserId = nat
  type InviteId = nat
  /** The hash of an invite's token. */
  type Token = nat

  datatype User = User(id: UserId, isAdmin: bool)

  datatype Room = Room(subnet: Prefix, owner: UserId, autoJoin: bool, version: nat)

  /** What a node offers its rooms. */
  datatype Node = Node(offered: seq<Prefix>, exitOffered: bool)

  datatype Status = Pending | Active | Banned

  datatype Member = Member(name: string, ip: Addr, status: Status, routes: seq<Prefix>, exit: bool)

  /** usesLeft -1: unlimited. */
  datatype Invite = Invite(id: InviteId, room: RoomId, usesLeft: int, expires: int, autoApprove: bool)

  /** The tables, by their keys: a token's hash is unique among invites. */
  datatype Db = Db(rooms: map<RoomId, Room>, nodes: map<NodeId, Node>, members: map<(RoomId, NodeId), Member>,
                   invites: map<Token, Invite>, version: nat)

  datatype Error = Forbidden | Invalid | NotFound | Conflict

  /** A transaction's end: what it leaves, or an error, after which nothing of it
      is left. */
  datatype Outcome<T> = Done(db: Db, value: T) | Failed(error: Error)

  // ---- the store ----

  function NodesIn(db: Db, room: RoomId): set<NodeId>
  {
    set k | k in db.members && k.0 == room :: k.1
  }

  /** The addresses of a room's members, banned ones too. */
  function Taken(db: Db, room: RoomId): set<Addr>
  {
    set k | k in db.members && k.0 == room :: db.members[k].ip
  }

  predicate CanUse(db: Db, room: RoomId, token: Token, now: int)
  {
    token in db.invites && db.invites[token].room == room && db.invites[token].expires > now
    && db.invites[token].usesLeft != 0
  }

  /** UseInvite, if the invite can be used. */
  function Spend(db: Db, token: Token): Db
    requires token in db.invites
  {
    var inv := db.invites[token];
    if inv.usesLeft > 0 then db.(invites := db.invites[token := inv.(usesLeft := inv.usesLeft - 1)]) else db
  }

  /** Whether the table takes this row: no other member of the room has the address. */
  predicate AddressFits(db: Db, room: RoomId, node: NodeId, ip: Addr)
  {
    forall k :: k in db.members && k.0 == room && k.1 != node ==> db.members[k].ip != ip
  }

  function BumpRoom(db: Db, room: RoomId): Db
  {
    if room in db.rooms then db.(rooms := db.rooms[room := db.rooms[room].(version := db.rooms[room].version + 1)])
    else db
  }

  function Commit<T>(db: Db, value: T): Outcome<T>
  {
    Done(db.(version := db.version + 1), value)
  }

  // ---- the service ----

  /** The quota of members a room may have, 0: none; and how a node's ID is written. */
  datatype Config = Config(maxMembers: nat, idText: NodeId -> string)

  datatype JoinRequest = JoinRequest(room: RoomId, node: NodeId, token: Token, name: string, keysGiven: bool, offers: Node)

  /** How a node got in; via: the invite that was spent, if any. */
  datatype Joined = Joined(status: Status, via: Option<Token>)

  function CleanName(name: string, fallback: string): string
  {
    var t := TrimSpace(name);
    if t == "" then fallback else if |t| > 40 then t[..40] else t
  }

  function Join(cfg: Config, db: Db, req: JoinRequest, now: int): Outcome<Joined>
  {
    var key := (req.room, req.node);
    if !req.keysGiven then Failed(Invalid)
    else if req.room !in db.rooms then Failed(Forbidden)
    else
      var db1 := db.(nodes := db.nodes[req.node := req.offers]);
      if key in db.members then
        if db.members[key].status == Banned then Failed(Forbidden)
        else Commit(db1, Joined(db.members[key].status, None))
      else if !CanUse(db1, req.room, req.token, now) then Failed(Forbidden)
      else if cfg.maxMembers > 0 && |NodesIn(db1, req.room)| >= cfg.maxMembers then Failed(Forbidden)
      else
        match Lowest(db.rooms[req.room].subnet, Taken(db1, req.room))
        case None => Failed(Invalid)
        case Some(ip) =>
          var status := if db.invites[req.token].autoApprove || db.rooms[req.room].autoJoin then Active else Pending;
          if !AddressFits(db1, req.room, req.node, ip) then Failed(Conflict)
          else
            var m := Member(CleanName(req.name, cfg.idText(req.node)), ip, status, [], false);
            var db2 := Spend(db1, req.token);
            Commit(BumpRoom(db2.(members := db2.members[key := m]), req.room), Joined(status, Some(req.token)))
  }

  function Leave(db: Db, room: RoomId, node: NodeId): Outcome<()>
  {
    if (room, node) !in db.members then Failed(NotFound)
    else if db.members[(room, node)].status == Banned then Commit(db, ())
    else Commit(BumpRoom(db.(members := db.members - {(room, node)}), room), ())
  }

  /** roomFor. */
  function RoomFor(db: Db, u: User, room: RoomId): Option<Error>
  {
    if room !in db.rooms then Some(NotFound)
    else if !u.isAdmin && db.rooms[room].owner != u.id then Some(Forbidden)
    else None
  }

  datatype Action = Approve | Unban | Ban | Kick | Routes | NoRoutes | Exit | NoExit

  predicate Overlaps(p: Prefix, q: Prefix)
  {
    p.Contains(q.addr) || q.Contains(p.addr)
  }

  function Apart(offered: seq<Prefix>, subnet: Prefix): seq<Prefix>
  {
    if offered == [] then []
    else
      var p := offered[|offered| - 1];
      Apart(offered[..|offered| - 1], subnet) + if Overlaps(p, subnet) then [] else [p]
  }

  /** The member's new row, or what is wrong; for a kick there is no row. */
  function Acted(m: Member, offers: Node, subnet: Prefix, act: Action): Option<Member>
  {
    match act
    case Approve => Some(m.(status := Active))
    case Unban => Some(m.(status := Active))
    case Ban => Some(m.(status := Banned))
    case Kick => None
    case Routes =>
      var routes := Apart(offers.offered, subnet);
      if routes == [] then None else Some(m.(routes := routes))
    case NoRoutes => Some(m.(routes := []))
    case Exit => if offers.exitOffered then Some(m.(exit := true)) else None
    case NoExit => Some(m.(exit := false))
  }

  function Offers(db: Db, node: NodeId): Node
  {
    if node in db.nodes then db.nodes[node] else Node([], false)
  }

  function Act(db: Db, u: User, room: RoomId, node: NodeId, act: Action): Outcome<()>
  {
    var key := (room, node);
    if RoomFor(db, u, room).Some? then Failed(RoomFor(db, u, room).value)
    else if key !in db.members then Failed(NotFound)
    else if act.Kick? then Commit(BumpRoom(db.(members := db.members - {key}), room), ())
    else
      match Acted(db.members[key], Offers(db, node), db.rooms[room].subnet, act)
      case None => Failed(Invalid)
      case Some(m) => Commit(BumpRoom(db.(members := db.members[key := m]), room), ())
  }

  predicate GoodName(name: string)
  {
    1 <= |TrimSpace(name)| <= 40
  }

  /** UpdateMember; ip is None if the text given is no IPv4 address. */
  function Update(db: Db, u: User, room: RoomId, node: NodeId, name: string, ip: Option<Addr>): Outcome<()>
  {
    var key := (room, node);
    if !GoodName(name) then Failed(Invalid)
    else if RoomFor(db, u, room).Some? then Failed(RoomFor(db, u, room).value)
    else if key !in db.members then Failed(NotFound)
    else if ip.None? || !UsableHost(db.rooms[room].subnet, ip.value) then Failed(Invalid)
    else if ip.value != db.members[key].ip && ip.value in Taken(db, room) then Failed(Invalid)
    else if !AddressFits(db, room, node, ip.value) then Failed(Conflict)
    else
      var m := db.members[key].(name := TrimSpace(name), ip := ip.value);
      Commit(BumpRoom(db.(members := db.members[key := m]), room), ())
  }

  const YEAR := 365 * 24 * 3600

  /** CreateInvite, with a token and an ID that the database has not seen. */
  function Issue(db: Db, u: User, room: RoomId, token: Token, id: InviteId, uses: int, ttl: int, auto: bool, now: int)
    : Outcome<()>
  {
    if ttl <= 0 || ttl > YEAR then Failed(Invalid)
    else if RoomFor(db, u, room).Some? then Failed(RoomFor(db, u, room).value)
    else if token in db.invites then Failed(Conflict)
    else Commit(db.(invites := db.invites[token := Invite(id, room, if uses <= 0 then -1 else uses, now + ttl, auto)]), ())
  }

  function Revoked(invites: map<Token, Invite>, room: RoomId, id: InviteId): map<Token, Invite>
  {
    map t | t in invites ::
      if invites[t].room == room && invites[t].id == id then invites[t].(usesLeft := 0) else invites[t]
  }

  function Revoke(db: Db, u: User, room: RoomId, id: InviteId): Outcome<()>
  {
    if RoomFor(db, u, room).Some? then Failed(RoomFor(db, u, room).value)
    else Commit(db.(invites := Revoked(db.invites, room, id)), ())
  }

  /** A poll records what the node offers; if that is news, a transaction of its
      own then bumps the version. */
  function Record(db: Db, node: NodeId, offers: Node): Outcome<()>
  {
    if node !in db.nodes then Failed(Forbidden) else Done(db.(nodes := db.nodes[node := offers]), ())
  }
}
