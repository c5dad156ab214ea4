/** internal/controller/service.go: addresses and invites over every run of the
    controller's operations, each a transaction of its own. */
module ControllerRuns {
  import opened Common
  import opened Ipv4
  import opened Hosts
  import opened ControllerDb

  datatype Op =
    | DoJoin(req: JoinRequest)
    | DoLeave(room: RoomId, node: NodeId)
    | DoAct(user: User, room: RoomId, node: NodeId, act: Action)
    | DoUpdate(user: User, room: RoomId, node: NodeId, name: string, ip: Option<Addr>)
    | DoIssue(user: User, room: RoomId, token: Token, id: InviteId, uses: int, ttl: int, auto: bool)
    | DoRevoke(user: User, room: RoomId, id: InviteId)
    | DoRecord(node: NodeId, offers: Node)
    | DoBump

  datatype Event = Event(op: Op, now: int)

  /** What comes back of an operation: an error, an admission, or nothing. */
  function Run(cfg: Config, db: Db, e: Event): Outcome<Option<Joined>>
  {
    match e.op
    case DoJoin(req) =>
      (match Join(cfg, db, req, e.now)
       case Failed(err) => Failed(err)
       case Done(d, j) => Done(d, Some(j)))
    case DoLeave(room, node) => Plain(Leave(db, room, node))
    case DoAct(u, room, node, act) => Plain(Act(db, u, room, node, act))
    case DoUpdate(u, room, node, name, ip) => Plain(Update(db, u, room, node, name, ip))
    case DoIssue(u, room, token, id, uses, ttl, auto) => Plain(Issue(db, u, room, token, id, uses, ttl, auto, e.now))
    case DoRevoke(u, room, id) => Plain(Revoke(db, u, room, id))
    case DoRecord(node, offers) => Plain(Record(db, node, offers))
    case DoBump => Commit(db, None)
  }

  function Plain(o: Outcome<()>): Outcome<Option<Joined>>
  {
    match o
    case Failed(err) => Failed(err)
    case Done(d, _) => Done(d, None)
  }

  /** A failed transaction leaves the database as it was. */
  function Next(cfg: Config, db: Db, e: Event): Db
  {
    match Run(cfg, db, e)
    case Failed(_) => db
    case Done(d, _) => d
  }

  function After(cfg: Config, db: Db, es: seq<Event>): Db
  {
    if es == [] then db else Next(cfg, After(cfg, db, es[..|es| - 1]), es[|es| - 1])
  }

  /** The member an event lets into a room by an invite, if it does. */
  predicate Admits(cfg: Config, db: Db, e: Event, token: Token)
  {
    var o := Run(cfg, db, e);
    o.Done? && o.value.Some? && o.value.value.via == Some(token)
  }

  /** How many new members the run let in by an invite. */
  function Admitted(cfg: Config, db: Db, es: seq<Event>, token: Token): nat
  {
    if es == [] then 0
    else
      var init := es[..|es| - 1];
      Admitted(cfg, db, init, token) + if Admits(cfg, After(cfg, db, init), es[|es| - 1], token) then 1 else 0
  }

  // ---- addresses ----

  /** Every member's address is a usable host of its room's subnet. */
  predicate AllUsable(db: Db)
  {
    forall k :: k in db.members ==> k.0 in db.rooms && UsableHost(db.rooms[k.0].subnet, db.members[k].ip)
  }

  /** No two members of one room share an address. */
  predicate AllDistinct(db: Db)
  {
    forall j, k :: j in db.members && k in db.members && j.0 == k.0 && j != k ==> db.members[j].ip != db.members[k].ip
  }

  ghost predicate Inv(db: Db)
  {
    AllUsable(db) && AllDistinct(db)
  }

  lemma TakenFits(db: Db, room: RoomId, node: NodeId, ip: Addr)
    requires ip !in Taken(db, room)
    ensures AddressFits(db, room, node, ip)
  {
    forall k | k in db.members && k.0 == room && k.1 != node ensures db.members[k].ip != ip {
      assert db.members[k].ip in Taken(db, room);
    }
  }

  lemma OwnAddressFits(db: Db, room: RoomId, node: NodeId)
    requires AllDistinct(db) && (room, node) in db.members
    ensures AddressFits(db, room, node, db.members[(room, node)].ip)
  {
  }

  /** Only members and subnets matter. */
  lemma SameMembersKeep(db: Db, u: Db)
    requires Inv(db) && u.members == db.members && u.rooms.Keys == db.rooms.Keys
    requires forall r :: r in db.rooms ==> u.rooms[r].subnet == db.rooms[r].subnet
    ensures Inv(u)
  {
  }

  /** A member's row, new or changed, with an address that fits. */
  lemma FittingKeeps(db: Db, key: (RoomId, NodeId), m: Member)
    requires Inv(db) && key.0 in db.rooms && UsableHost(db.rooms[key.0].subnet, m.ip)
    requires AddressFits(db, key.0, key.1, m.ip)
    ensures Inv(BumpRoom(db.(members := db.members[key := m]), key.0))
  {
    var u := db.(members := db.members[key := m]);
    forall j, k | j in u.members && k in u.members && j.0 == k.0 && j != k ensures u.members[j].ip != u.members[k].ip {
      assert j == (j.0, j.1) && k == (k.0, k.1);
    }
    SameMembersKeep(u, BumpRoom(u, key.0));
  }

  lemma JoinKeeps(cfg: Config, db: Db, req: JoinRequest, now: int)
    requires Inv(db)
    ensures Join(cfg, db, req, now).Done? ==> Inv(Join(cfg, db, req, now).db)
    ensures Join(cfg, db, req, now) != Failed(Conflict)
  {
    var key, o := (req.room, req.node), Join(cfg, db, req, now);
    if key in db.members {
      if o.Done? {
        SameMembersKeep(db, o.db);
      }
    } else {
      WhoJoins(cfg, db, req, now);
      if o.Done? {
        var m := o.db.members[key];
        TakenFits(db, req.room, req.node, m.ip);
        FittingKeeps(db, key, m);
        SameMembersKeep(BumpRoom(db.(members := db.members[key := m]), req.room), o.db);
      }
    }
  }

  lemma UpdateKeeps(db: Db, u: User, room: RoomId, node: NodeId, name: string, ip: Option<Addr>)
    requires Inv(db)
    ensures var o := Update(db, u, room, node, name, ip); (o.Done? ==> Inv(o.db)) && o != Failed(Conflict)
  {
    var key := (room, node);
    if key in db.members && ip.Some? && RoomFor(db, u, room).None? && UsableHost(db.rooms[room].subnet, ip.value) {
      if ip.value == db.members[key].ip {
        OwnAddressFits(db, room, node);
      } else if ip.value !in Taken(db, room) {
        TakenFits(db, room, node, ip.value);
      }
      if AddressFits(db, room, node, ip.value) {
        FittingKeeps(db, key, db.members[key].(name := Strings.TrimSpace(name), ip := ip.value));
      }
    }
  }

  lemma ActedKeeps(m: Member, offers: Node, subnet: Prefix, act: Action)
    ensures var r := Acted(m, offers, subnet, act);
      r.Some? ==> r.value.ip == m.ip && (r.value.status == m.status || act.Approve? || act.Unban? || act.Ban?)
  {
  }

  lemma SameAddressKeeps(db: Db, key: (RoomId, NodeId), m: Member)
    requires Inv(db) && key in db.members && m.ip == db.members[key].ip
    ensures Inv(BumpRoom(db.(members := db.members[key := m]), key.0))
  {
  }

  lemma FewerKeeps(db: Db, key: (RoomId, NodeId))
    requires Inv(db)
    ensures Inv(BumpRoom(db.(members := db.members - {key}), key.0))
  {
  }

  lemma ActKeeps(db: Db, u: User, room: RoomId, node: NodeId, act: Action)
    requires Inv(db)
    ensures var o := Act(db, u, room, node, act); (o.Done? ==> Inv(o.db)) && o != Failed(Conflict)
  {
    var key := (room, node);
    if RoomFor(db, u, room).None? && key in db.members {
      FewerKeeps(db, key);
      var r := Acted(db.members[key], Offers(db, node), db.rooms[room].subnet, act);
      ActedKeeps(db.members[key], Offers(db, node), db.rooms[room].subnet, act);
      if r.Some? {
        SameAddressKeeps(db, key, r.value);
      }
    }
  }

  /** No operation breaks the invariant, and the database's own rule that
      addresses are unique never has to stop one. */
  lemma NextKeeps(cfg: Config, db: Db, e: Event)
    requires Inv(db)
    ensures Inv(Next(cfg, db, e))
    ensures Run(cfg, db, e) == Failed(Conflict) ==> e.op.DoIssue? && e.op.token in db.invites
  {
    match e.op
    case DoJoin(req) => JoinKeeps(cfg, db, req, e.now);
    case DoLeave(room, node) => FewerKeeps(db, (room, node));
    case DoAct(u, room, node, act) => ActKeeps(db, u, room, node, act);
    case DoUpdate(u, room, node, name, ip) => UpdateKeeps(db, u, room, node, name, ip);
    case DoIssue(_, _, _, _, _, _, _) =>
    case DoRevoke(_, _, _) =>
    case DoRecord(_, _) =>
    case DoBump =>
  }

  /** Over every run the members of a room have different usable addresses. */
  lemma {:induction false} AlwaysDistinct(cfg: Config, db: Db, es: seq<Event>)
    requires Inv(db)
    ensures Inv(After(cfg, db, es))
  {
    if es != [] {
      AlwaysDistinct(cfg, db, es[..|es| - 1]);
      NextKeeps(cfg, After(cfg, db, es[..|es| - 1]), es[|es| - 1]);
    }
  }

  // ---- who gets in ----

  lemma {:induction false} ImageSize(db: Db, room: RoomId, nodes: set<NodeId>, ips: set<Addr>)
    requires nodes <= NodesIn(db, room)
    requires forall a :: a in ips ==> exists n :: n in nodes && db.members[(room, n)].ip == a
    ensures |ips| <= |nodes|
  {
    if ips != {} {
      var a :| a in ips;
      var n :| n in nodes && db.members[(room, n)].ip == a;
      forall b | b in ips - {a} ensures exists m :: m in nodes - {n} && db.members[(room, m)].ip == b {
        var m :| m in nodes && db.members[(room, m)].ip == b;
        assert m in nodes - {n};
      }
      ImageSize(db, room, nodes - {n}, ips - {a});
    }
  }

  lemma TakenSize(db: Db, room: RoomId)
    ensures |Taken(db, room)| <= |NodesIn(db, room)|
  {
    forall a | a in Taken(db, room) ensures exists n :: n in NodesIn(db, room) && db.members[(room, n)].ip == a {
      var k :| k in db.members && k.0 == room && db.members[k].ip == a;
      assert k == (room, k.1) && k.1 in NodesIn(db, room);
    }
    ImageSize(db, room, NodesIn(db, room), Taken(db, room));
  }

  /** A new node gets in exactly if it gives its keys, the room exists, the invite
      can be used, the room is not full, and some usable address is free; it then
      gets the lowest one, and the invite is one use shorter. */
  lemma WhoJoins(cfg: Config, db: Db, req: JoinRequest, now: int)
    requires (req.room, req.node) !in db.members
    ensures Join(cfg, db, req, now) != Failed(Conflict)
    ensures Join(cfg, db, req, now).Done? <==>
      req.keysGiven && req.room in db.rooms && CanUse(db, req.room, req.token, now)
      && (cfg.maxMembers == 0 || |NodesIn(db, req.room)| < cfg.maxMembers)
      && exists a :: UsableHost(db.rooms[req.room].subnet, a) && a !in Taken(db, req.room)
    ensures Join(cfg, db, req, now).Done? ==>
      var d := Join(cfg, db, req, now).db;
      var m := d.members[(req.room, req.node)];
      d.members == db.members[(req.room, req.node) := m] && d.invites == Spend(db, req.token).invites
      && d.rooms == BumpRoom(db, req.room).rooms && d.version == db.version + 1
      && m.status == (if db.invites[req.token].autoApprove || db.rooms[req.room].autoJoin then Active else Pending)
      && UsableHost(db.rooms[req.room].subnet, m.ip) && m.ip !in Taken(db, req.room)
      && forall a: Addr :: a < m.ip && UsableHost(db.rooms[req.room].subnet, a) ==> a in Taken(db, req.room)
  {
    var db1 := db.(nodes := db.nodes[req.node := req.offers]);
    assert Taken(db1, req.room) == Taken(db, req.room) && NodesIn(db1, req.room) == NodesIn(db, req.room);
    if req.room in db.rooms {
      LowestIsLowest(db.rooms[req.room].subnet, Taken(db, req.room));
      var r := Lowest(db.rooms[req.room].subnet, Taken(db, req.room));
      if r.Some? {
        TakenFits(db1, req.room, req.node, r.value);
      }
    }
  }

  /** While a room has fewer members than its subnet has hosts, an address is free. */
  lemma RoomForOneMore(db: Db, room: RoomId)
    requires room in db.rooms && |NodesIn(db, room)| < db.rooms[room].subnet.Size() - 2
    ensures exists a :: UsableHost(db.rooms[room].subnet, a) && a !in Taken(db, room)
  {
    TakenSize(db, room);
    AddressLeft(db.rooms[room].subnet, Taken(db, room));
    var r := Lowest(db.rooms[room].subnet, Taken(db, room));
    assert UsableHost(db.rooms[room].subnet, r.value);
  }

  // ---- invites ----

  predicate UsesOne(inv: Invite, next: Invite, admits: bool)
  {
    next == if admits && inv.usesLeft > 0 then inv.(usesLeft := inv.usesLeft - 1) else inv
  }

  lemma JoinUses(cfg: Config, db: Db, req: JoinRequest, now: int, token: Token)
    requires token in db.invites && Join(cfg, db, req, now).Done?
    ensures var o := Join(cfg, db, req, now);
      var admits := o.value.via == Some(token);
      token in o.db.invites && UsesOne(db.invites[token], o.db.invites[token], admits)
      && (admits ==> db.invites[token].usesLeft != 0)
  {
    if (req.room, req.node) !in db.members {
      WhoJoins(cfg, db, req, now);
    }
  }

  /** What one event does to an invite: an admission by it takes one use, and a
      revocation all of them. */
  lemma OneUse(cfg: Config, db: Db, e: Event, token: Token)
    requires token in db.invites
    ensures var inv, next := db.invites[token], Next(cfg, db, e).invites;
      token in next && (Admits(cfg, db, e, token) ==> inv.usesLeft != 0)
      && if Revokes(cfg, db, e, token) then next[token] == inv.(usesLeft := 0)
         else UsesOne(inv, next[token], Admits(cfg, db, e, token))
  {
    match e.op
    case DoJoin(req) =>
      if Join(cfg, db, req, e.now).Done? {
        JoinUses(cfg, db, req, e.now, token);
      }
    case DoLeave(_, _) =>
    case DoAct(u, room, node, act) =>
    case DoUpdate(u, room, node, name, ip) =>
    case DoIssue(_, _, _, _, _, _, _) =>
    case DoRevoke(_, _, _) =>
    case DoRecord(_, _) =>
    case DoBump =>
  }

  /** An attempt to revoke the invite that succeeds; whoever does not manage the
      room is refused. */
  predicate Revokes(cfg: Config, db: Db, e: Event, token: Token)
  {
    e.op.DoRevoke? && token in db.invites && e.op.room == db.invites[token].room && e.op.id == db.invites[token].id
    && Run(cfg, db, e).Done?
  }

  ghost predicate NeverRevoked(cfg: Config, db: Db, es: seq<Event>, token: Token)
  {
    forall i :: 0 <= i < |es| ==> !Revokes(cfg, After(cfg, db, es[..i]), es[i], token)
  }

  /** Until it is revoked, an invite issued for n uses has let in exactly n minus
      the uses it has left, and an unlimited one stays so. */
  lemma {:induction false} InviteAccounting(cfg: Config, db: Db, es: seq<Event>, token: Token)
    requires token in db.invites
    requires NeverRevoked(cfg, db, es, token)
    ensures var inv, left := db.invites[token], After(cfg, db, es).invites;
      token in left && left[token].id == inv.id && left[token].room == inv.room
      && (if inv.usesLeft >= 0
          then left[token].usesLeft >= 0 && Admitted(cfg, db, es, token) == inv.usesLeft - left[token].usesLeft
          else left[token].usesLeft == inv.usesLeft)
  {
    if es != [] {
      var init, last := es[..|es| - 1], es[|es| - 1];
      assert es[..|init|] == init && forall i :: 0 <= i < |init| ==> init[..i] == es[..i] && init[i] == es[i];
      InviteAccounting(cfg, db, init, token);
      OneUse(cfg, After(cfg, db, init), last, token);
    }
  }

  lemma JoinIsNew(cfg: Config, db: Db, req: JoinRequest, now: int)
    requires Join(cfg, db, req, now).Done? && Join(cfg, db, req, now).value.via.Some?
    ensures (req.room, req.node) !in db.members && (req.room, req.node) in Join(cfg, db, req, now).db.members
    ensures |Join(cfg, db, req, now).db.members| == |db.members| + 1
    ensures Join(cfg, db, req, now).value.via == Some(req.token) && CanUse(db, req.room, req.token, now)
  {
    var key := (req.room, req.node);
    WhoJoins(cfg, db, req, now);
    assert Join(cfg, db, req, now).db.members.Keys == db.members.Keys + {key};
  }

  lemma AdmissionIsJoin(cfg: Config, db: Db, e: Event, token: Token)
    requires Admits(cfg, db, e, token)
    ensures e.op.DoJoin?
    ensures var o := Join(cfg, db, e.op.req, e.now); o.Done? && o.value.via == Some(token) && Next(cfg, db, e) == o.db
  {
  }

  /** An admission by an invite makes one new member, by an invite that can be
      used. */
  lemma AdmissionIsNew(cfg: Config, db: Db, e: Event, token: Token)
    requires Admits(cfg, db, e, token)
    ensures e.op.DoJoin? && (e.op.req.room, e.op.req.node) !in db.members
    ensures (e.op.req.room, e.op.req.node) in Next(cfg, db, e).members
    ensures |Next(cfg, db, e).members| == |db.members| + 1
    ensures CanUse(db, e.op.req.room, token, e.now)
  {
    AdmissionIsJoin(cfg, db, e, token);
    JoinIsNew(cfg, db, e.op.req, e.now);
  }

  /** An invite without a use left lets nobody in, whatever happens. */
  lemma {:induction false} UsedUpAdmitsNobody(cfg: Config, db: Db, es: seq<Event>, token: Token)
    requires token in db.invites && db.invites[token].usesLeft == 0
    ensures var left := After(cfg, db, es).invites; token in left && left[token] == db.invites[token]
    ensures Admitted(cfg, db, es, token) == 0
  {
    if es != [] {
      var init, last := es[..|es| - 1], es[|es| - 1];
      UsedUpAdmitsNobody(cfg, db, init, token);
      OneUse(cfg, After(cfg, db, init), last, token);
    }
  }

  /** So a revoked invite never lets anybody in again. */
  lemma RevokedAdmitsNobody(cfg: Config, db: Db, e: Event, es: seq<Event>, token: Token)
    requires Revokes(cfg, db, e, token)
    ensures Admitted(cfg, Next(cfg, db, e), es, token) == 0
  {
    OneUse(cfg, db, e, token);
    UsedUpAdmitsNobody(cfg, Next(cfg, db, e), es, token);
  }

  // ---- bans ----

  /** What lifts a ban: an approval, an unban or a kick that is not refused. */
  predicate Lifts(cfg: Config, db: Db, e: Event, key: (RoomId, NodeId))
  {
    e.op.DoAct? && (e.op.room, e.op.node) == key && (e.op.act.Approve? || e.op.act.Unban? || e.op.act.Kick?)
    && Run(cfg, db, e).Done?
  }

  ghost predicate NeverLifted(cfg: Config, db: Db, es: seq<Event>, key: (RoomId, NodeId))
  {
    forall i :: 0 <= i < |es| ==> !Lifts(cfg, After(cfg, db, es[..i]), es[i], key)
  }

  predicate IsBanned(db: Db, key: (RoomId, NodeId))
  {
    key in db.members && db.members[key].status == Banned
  }

  /** One event ends a ban exactly if it lifts it. */
  lemma BanStep(cfg: Config, db: Db, e: Event, key: (RoomId, NodeId))
    requires IsBanned(db, key)
    ensures IsBanned(Next(cfg, db, e), key) <==> !Lifts(cfg, db, e, key)
  {
    if e.op.DoAct? && (e.op.room, e.op.node) == key && e.op.room in db.rooms {
      ActedKeeps(db.members[key], Offers(db, e.op.node), db.rooms[e.op.room].subnet, e.op.act);
    }
  }

  /** Until a ban is lifted the member stays banned, leaving and joining again
      included, and every attempt to join is refused. */
  lemma {:induction false} BanHolds(cfg: Config, db: Db, es: seq<Event>, key: (RoomId, NodeId), req: JoinRequest, now: int)
    requires IsBanned(db, key) && NeverLifted(cfg, db, es, key)
    ensures IsBanned(After(cfg, db, es), key)
    ensures (req.room, req.node) == key ==> Join(cfg, After(cfg, db, es), req, now).Failed?
  {
    if es != [] {
      var init, last := es[..|es| - 1], es[|es| - 1];
      assert es[..|init|] == init && forall i :: 0 <= i < |init| ==> init[..i] == es[..i] && init[i] == es[i];
      BanHolds(cfg, db, init, key, req, now);
      BanStep(cfg, After(cfg, db, init), last, key);
    }
  }

  // ---- who may change what ----

  /** canManage. */
  predicate Manages(db: Db, u: User, room: RoomId)
  {
    room in db.rooms && (u.isAdmin || db.rooms[room].owner == u.id)
  }

  /** Attempts to revoke an invite or to lift a ban succeed exactly for whoever
      manages the room. */
  lemma WhoDecides(cfg: Config, db: Db, e: Event, token: Token, key: (RoomId, NodeId))
    ensures Revokes(cfg, db, e, token) <==>
      e.op.DoRevoke? && token in db.invites && e.op.room == db.invites[token].room && e.op.id == db.invites[token].id
      && Manages(db, e.op.user, e.op.room)
    ensures key in db.members ==>
      (Lifts(cfg, db, e, key) <==>
         e.op.DoAct? && (e.op.room, e.op.node) == key && (e.op.act.Approve? || e.op.act.Unban? || e.op.act.Kick?)
         && Manages(db, e.op.user, e.op.room))
  {
    match e.op
    case DoAct(_, _, _, _) =>
    case DoRevoke(_, _, _) =>
    case _ =>
  }

  /** An operation that may change this membership: the node's own joining, if it
      is no member, and leaving, if it is not banned, or an act of whoever manages
      the room. */
  predicate MayChange(db: Db, op: Op, key: (RoomId, NodeId))
  {
    match op
    case DoJoin(req) => (req.room, req.node) == key && key !in db.members
    case DoLeave(room, node) => (room, node) == key && key in db.members && db.members[key].status != Banned
    case DoAct(u, room, node, _) => (room, node) == key && key in db.members && Manages(db, u, room)
    case DoUpdate(u, room, node, _, _) => (room, node) == key && key in db.members && Manages(db, u, room)
    case _ => false
  }

  predicate SameRow(db: Db, u: Db, key: (RoomId, NodeId))
  {
    (key in db.members <==> key in u.members) && (key in db.members ==> db.members[key] == u.members[key])
  }

  lemma JoinLeavesOthers(cfg: Config, db: Db, req: JoinRequest, now: int, key: (RoomId, NodeId))
    requires Join(cfg, db, req, now).Done?
    requires (req.room, req.node) != key || key in db.members
    ensures SameRow(db, Join(cfg, db, req, now).db, key)
  {
    if (req.room, req.node) !in db.members {
      WhoJoins(cfg, db, req, now);
    }
  }

  /** Nobody else changes a membership, and nothing but these operations does. */
  lemma WhoChanges(cfg: Config, db: Db, e: Event, key: (RoomId, NodeId))
    requires !MayChange(db, e.op, key)
    ensures SameRow(db, Next(cfg, db, e), key)
  {
    match e.op
    case DoJoin(req) =>
      if Join(cfg, db, req, e.now).Done? {
        JoinLeavesOthers(cfg, db, req, e.now, key);
      }
    case DoLeave(_, _) =>
    case DoAct(_, _, _, _) =>
    case DoUpdate(_, _, _, _, _) =>
    case DoIssue(_, _, _, _, _, _, _) =>
    case DoRevoke(_, _, _) =>
    case DoRecord(_, _) =>
    case DoBump =>
  }

  /** What an act of a manager makes of a member: approved and unbanned ones are
      active, banned ones banned, a kicked one gone; routes approved are offered
      ones that do not overlap the room, an exit approved is one offered. */
  lemma ActsDoAsTold(db: Db, u: User, room: RoomId, node: NodeId, act: Action)
    requires Act(db, u, room, node, act).Done?
    ensures var d, key := Act(db, u, room, node, act).db, (room, node);
      key in db.members && Manages(db, u, room) && (act.Kick? <==> key !in d.members)
      && (act.Approve? || act.Unban? ==> d.members[key].status == Active)
      && (act.Ban? ==> d.members[key].status == Banned)
      && (act.Exit? ==> d.members[key].exit && Offers(db, node).exitOffered)
      && (act.Routes? ==> d.members[key].routes != [])
      && (act.Routes? ==> forall p :: p in d.members[key].routes ==>
            p in Offers(db, node).offered && !Overlaps(p, db.rooms[room].subnet))
      && d.rooms[room].version == db.rooms[room].version + 1
  {
    ApartAreOffered(Offers(db, node).offered, db.rooms[room].subnet);
  }

  lemma {:induction false} ApartAreOffered(offered: seq<Prefix>, subnet: Prefix)
    ensures forall p :: p in Apart(offered, subnet) <==> p in offered && !Overlaps(p, subnet)
  {
    if offered != [] {
      ApartAreOffered(offered[..|offered| - 1], subnet);
      assert offered == offered[..|offered| - 1] + [offered[|offered| - 1]];
    }
  }

  // ---- versions ----

  lemma JoinGrows(cfg: Config, db: Db, req: JoinRequest, now: int)
    ensures Join(cfg, db, req, now).Done? ==> Join(cfg, db, req, now).db.version == db.version + 1
  {
  }

  lemma MemberGrows(db: Db, u: User, room: RoomId, node: NodeId, act: Action, name: string, ip: Option<Addr>)
    ensures Leave(db, room, node).Done? ==> Leave(db, room, node).db.version == db.version + 1
    ensures Act(db, u, room, node, act).Done? ==> Act(db, u, room, node, act).db.version == db.version + 1
    ensures Update(db, u, room, node, name, ip).Done? ==> Update(db, u, room, node, name, ip).db.version == db.version + 1
  {
  }

  /** The version never decreases, and grows with every operation that succeeds,
      but for writing down what a node offers, which changes no member, room or
      invite. */
  lemma VersionsGrow(cfg: Config, db: Db, e: Event)
    ensures var o := Run(cfg, db, e);
      o.Done? ==>
        if e.op.DoRecord? then o.db == db.(nodes := o.db.nodes) else o.db.version == db.version + 1
  {
    match e.op
    case DoJoin(req) => JoinGrows(cfg, db, req, e.now);
    case DoLeave(room, node) => MemberGrows(db, User(0, true), room, node, NoExit, "", None);
    case DoAct(u, room, node, act) => MemberGrows(db, u, room, node, act, "", None);
    case DoUpdate(u, room, node, name, ip) => MemberGrows(db, u, room, node, NoExit, name, ip);
    case DoIssue(_, _, _, _, _, _, _) =>
    case DoRevoke(_, _, _) =>
    case DoRecord(_, _) =>
    case DoBump =>
  }
}
