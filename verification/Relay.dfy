/** internal/relay/server.go: the server, one method per critical section. Handle
    lets go of the lock between them and keeps its pointer to a session that
    may since have been replaced or dropped. */
module Relay {
  import opened Common
  import opened RateLimit
  import opened RelayTables
  import opened RelayStore

  class Session {
    const card: Card
    const key: SessionKey
    ghost const num: nat
    var addr: Address
    var last: int
    var window: Window

    ghost function Ref(): Ref
    {
      RelayStore.Ref(num, card, key)
    }

    ghost function View(): Vars
      reads this
    {
      Vars(addr, last, window)
    }

    constructor (card: Card, key: SessionKey, ghost num: nat, addr: Address, now: int)
      ensures Ref() == RelayStore.Ref(num, card, key) && View() == Vars(addr, now, UNUSED)
    {
      this.card, this.key, this.num, this.addr := card, key, num, addr;
      last, window := now, UNUSED;
    }
  }

  /** The tables as a value. */
  ghost function Refs(t: Tables<Session>): Tables<Ref>
  {
    RelayTables.Tables(map id | id in t.byID :: t.byID[id].Ref(), map n | n in t.byNode :: t.byNode[n].Ref())
  }

  lemma RefsInstalled(t: Tables<Session>, ss: Session)
    requires Mutual(t, (s: Session) => s.card)
    ensures Refs(Install(t, (s: Session) => s.card, ss)) == Install(Refs(t), CARD, ss.Ref())
  {
    RefsByID(t, ss);
    RefsByNode(t, ss);
  }

  lemma RefsByID(t: Tables<Session>, ss: Session)
    requires Mutual(t, (s: Session) => s.card)
    ensures Refs(Install(t, (s: Session) => s.card, ss)).byID == Install(Refs(t), CARD, ss.Ref()).byID
  {
    if ss.card.node in t.byNode {
      assert Refs(t).byNode[ss.card.node].card == t.byNode[ss.card.node].card;
    }
  }

  lemma RefsByNode(t: Tables<Session>, ss: Session)
    ensures Refs(Install(t, (s: Session) => s.card, ss)).byNode == Install(Refs(t), CARD, ss.Ref()).byNode
  {
  }

  lemma RefsKept(t: Tables<Session>, u: Tables<Session>, idle: set<SessionId>)
    requires forall id :: id in u.byID <==> id in t.byID && id !in idle
    requires forall n :: n in u.byNode <==> n in t.byNode && t.byNode[n].card.id !in idle
    requires (forall id :: id in u.byID ==> u.byID[id] == t.byID[id]) && forall n :: n in u.byNode ==> u.byNode[n] == t.byNode[n]
    ensures Refs(u) == Without(Refs(t), idle)
  {
    assert Refs(u).byID == Without(Refs(t), idle).byID;
    assert Refs(u).byNode == Without(Refs(t), idle).byNode;
  }

  class Server {
    var byID: map<SessionId, Session>
    var byNode: map<NodeId, Session>
    var perm: Perms
    /** Every session there ever was. */
    ghost var made: set<Session>

    ghost function Tables(): Tables<Session>
      reads this
    {
      RelayTables.Tables(byID, byNode)
    }

    ghost predicate Valid()
      reads this
    {
      Mutual(Tables(), (s: Session) => s.card)
      && (forall id :: id in byID ==> byID[id] in made)
      && forall s, t :: s in made && t in made && s.num == t.num ==> s == t
    }

    ghost function Abstract(): Store
      requires Valid()
      reads this, made
    {
      Store(Heap(), Refs(Tables()), perm)
    }

    ghost function Heap(): map<Ref, Vars>
      requires Valid()
      reads this, made
    {
      map s | s in made :: s.Ref() := s.View()
    }

    constructor ()
      ensures Valid() && Abstract() == Store(map[], RelayTables.Tables(map[], map[]), map[]) && made == {}
    {
      byID, byNode, perm, made := map[], map[], map[], {};
    }

    /** hello, once the node is known: id is fresh. */
    method Hello(node: NodeId, id: SessionId, key: SessionKey, ghost num: nat, from: Address, now: int) returns (ss: Session)
      requires Valid() && id !in byID && forall s :: s in made ==> s.num != num
      modifies this`byID, this`byNode, this`made
      ensures Valid() && fresh(ss) && made == old(made) + {ss} && ss.Ref() == RelayStore.Ref(num, Card(id, node), key)
      ensures Abstract() == Welcomed(old(Abstract()), ss.Ref(), from, now)
    {
      ghost var t := Tables();
      if node in byNode {
        byID := byID - {byNode[node].card.id};
      }
      ss := new Session(Card(id, node), key, num, from, now);
      byID := byID[id := ss];
      byNode := byNode[node := ss];
      made := made + {ss};
      InstallKeeps(t, (s: Session) => s.card, ss);
      SeenAfterHello(ss);
    }

    twostate lemma SeenAfterHello(new ss: Session)
      requires old(Valid()) && Valid() && made == old(made) + {ss} && ss !in old(made) && perm == old(perm)
      requires Tables() == Install(old(Tables()), (s: Session) => s.card, ss)
      requires forall s :: s in old(made) ==> s.View() == old(s.View())
      ensures Abstract() == old(Abstract()).(heap := old(Abstract()).heap[ss.Ref() := ss.View()],
                                             tables := Install(old(Abstract()).tables, CARD, ss.Ref()))
    {
      assert Heap() == old(Heap())[ss.Ref() := ss.View()];
      RefsInstalled(old(Tables()), ss);
    }

    /** One session changed, seen from outside. */
    twostate lemma OneChanged(s: Session)
      requires old(Valid()) && Valid() && made == old(made) && Tables() == old(Tables()) && perm == old(perm)
      requires s in made && forall o :: o in made && o != s ==> o.View() == old(o.View())
      ensures Abstract() == old(Abstract()).(heap := old(Abstract()).heap[s.Ref() := s.View()])
    {
      assert Abstract().heap == old(Abstract()).heap[s.Ref() := s.View()];
    }

    /** Handle, first section: the session of a frame, if it is not flooding. */
    method Lookup(id: SessionId, now: int) returns (src: Session?)
      requires Valid()
      modifies (set s | s in byID.Values)`window
      ensures Valid() && Abstract() == Counted(old(Abstract()), id, now)
      ensures src == null <==> Found(old(Abstract()), id, now) == None
      ensures src != null ==> src in made && Found(old(Abstract()), id, now) == Some(src.Ref())
    {
      if id !in byID {
        return null;
      }
      src := byID[id];
      assert src in made && Abstract().heap[src.Ref()] == src.View();
      if now - src.window.start >= SECOND {
        src.window := Window(now, 0);
      }
      src.window := src.window.(count := src.window.count + 1);
      OneChanged(src);
      if src.window.count > MAX_PPS {
        src := null;
      }
    }

    /** Handle, second section: src may be in no table any more, and whatever
        happens to it the tables agree. */
    method Touch(src: Session, from: Address, now: int) returns (srcID: NodeId)
      requires Valid() && src in made
      modifies src`addr, src`last
      ensures Valid() && Abstract() == Touched(old(Abstract()), src.Ref(), from, now) && srcID == src.card.node
    {
      assert Abstract().heap[src.Ref()] == src.View();
      src.addr, src.last := from, now;
      srcID := src.card.node;
      OneChanged(src);
    }

    /** allowed, before the controller is asked. */
    method PermLookup(src: NodeId, dst: NodeId, now: int) returns (v: Verdict)
      ensures v == Cached(perm, src, dst, now)
    {
      v := Unknown;
      if (src, dst) in perm {
        var e := perm[(src, dst)];
        if now - e.at < MINUTE {
          v := if e.ok then Yes else No;
        }
      }
    }

    method PermRecord(src: NodeId, dst: NodeId, allow: bool, now: int)
      requires Valid()
      modifies this`perm
      ensures Valid() && Abstract() == Recorded(old(Abstract()), src, dst, allow, now)
    {
      perm := perm[(src, dst) := Perm(allow, now)];
    }

    /** Handle, last section: the session the destination has now. */
    method Route(dst: NodeId) returns (to: Session?)
      requires Valid()
      ensures to == null <==> Destination(Abstract(), dst) == None
      ensures to != null ==> to.card.node == dst && Destination(Abstract(), dst) == Some(to.Ref())
    {
      if dst !in byNode {
        return null;
      }
      to := byNode[dst];
      assert byID[to.card.id] == to;
    }

    /** The body of the expiry loop for one session. */
    method ExpireOne(id: SessionId, now: int)
      requires Valid() && id in byID
      modifies this`byID, this`byNode
      ensures Valid()
      ensures Tables() == if now - old(byID)[id].last > SESSION_IDLE
                          then Drop(old(Tables()), (s: Session) => s.card, id) else old(Tables())
    {
      var ss := byID[id];
      if now - ss.last > SESSION_IDLE {
        ghost var t := Tables();
        byID := byID - {id};
        if ss.card.node in byNode && byNode[ss.card.node] == ss {
          byNode := byNode - {ss.card.node};
        }
        DropKeeps(t, (s: Session) => s.card, id);
      }
    }

    ghost predicate Live(s: Session, now: int, todo: set<SessionId>)
      reads s
    {
      s.card.id in todo || now - s.last <= SESSION_IDLE
    }

    /** What is left of tables t when the sessions in todo are still to be looked at. */
    ghost predicate Kept(u: Tables<Session>, t: Tables<Session>, now: int, todo: set<SessionId>)
      reads t.byID.Values, t.byNode.Values
    {
      (forall id :: id in u.byID <==> id in t.byID && Live(t.byID[id], now, todo))
      && (forall id :: id in u.byID ==> u.byID[id] == t.byID[id])
      && (forall n :: n in u.byNode <==> n in t.byNode && Live(t.byNode[n], now, todo))
      && forall n :: n in u.byNode ==> u.byNode[n] == t.byNode[n]
    }

    /** And when one of them has been looked at. */
    lemma KeptNext(u: Tables<Session>, t: Tables<Session>, now: int, todo: set<SessionId>, id: SessionId)
      requires Mutual(t, (s: Session) => s.card) && Mutual(u, (s: Session) => s.card)
      requires Kept(u, t, now, todo) && id in todo && id in t.byID
      ensures id in u.byID && u.byID[id] == t.byID[id]
      ensures Kept(if now - u.byID[id].last > SESSION_IDLE then Drop(u, (s: Session) => s.card, id) else u, t, now, todo - {id})
    {
      assert u.byID[id].card.id == id;
      forall n | n in u.byNode && u.byNode[n].card.id == id ensures u.byNode[n] == u.byID[id] && n == u.byID[id].card.node {
      }
      forall i | i in t.byID ensures t.byID[i].card.id == i {
      }
    }

    /** One round of expireLoop over the sessions: both tables lose exactly the
        idle ones. */
    method Expire(now: int)
      requires Valid()
      modifies this`byID, this`byNode
      ensures Valid() && Abstract() == Expired(old(Abstract()), now)
    {
      ExpireEach(now);
      SeenAfterExpiry(now);
    }

    method ExpireEach(now: int)
      requires Valid()
      modifies this`byID, this`byNode
      ensures Valid() && Kept(Tables(), old(Tables()), now, {})
    {
      ghost var was := Tables();
      var todo := byID.Keys;
      while todo != {}
        invariant Valid() && todo <= old(byID).Keys && Kept(Tables(), was, now, todo)
        decreases todo
      {
        var id :| id in todo;
        KeptNext(Tables(), was, now, todo, id);
        ExpireOne(id, now);
        todo := todo - {id};
      }
    }

    twostate lemma SeenAfterExpiry(now: int)
      requires old(Valid()) && Valid() && made == old(made) && perm == old(perm) && Kept(Tables(), old(Tables()), now, {})
      requires forall s :: s in made ==> s.View() == old(s.View())
      ensures Abstract() == Expired(old(Abstract()), now)
    {
      assert Heap() == old(Heap());
      IdleOnes(now);
      var t, idle := old(Tables()), Idle(old(Abstract()), now);
      forall id | id in t.byID ensures id in byID <==> id !in idle {
        assert t.byID[id].card.id == id;
      }
      forall n | n in t.byNode ensures n in byNode <==> t.byNode[n].card.id !in idle {
        assert t.byID[t.byNode[n].card.id] == t.byNode[n];
      }
      RefsKept(t, Tables(), idle);
    }

    twostate lemma IdleOnes(now: int)
      requires old(Valid()) && forall s :: s in old(made) ==> s.View() == old(s.View())
      ensures forall id :: id in old(byID) ==> (id in Idle(old(Abstract()), now) <==> now - old(byID)[id].last > SESSION_IDLE)
      ensures forall id :: id in Idle(old(Abstract()), now) ==> id in old(byID)
    {
      forall id | id in old(byID)
        ensures id in Idle(old(Abstract()), now) <==> now - old(byID)[id].last > SESSION_IDLE
      {
        var s := old(byID)[id];
        assert s in old(made) && old(Heap())[s.Ref()] == s.View();
      }
    }

    method ExpirePerms(now: int)
      requires Valid()
      modifies this`perm
      ensures Valid() && Abstract() == PermsExpired(old(Abstract()), now)
    {
      var todo := perm.Keys;
      while todo != {}
        invariant todo <= old(perm).Keys
        invariant perm == map k | k in old(perm) && (k in todo || now - old(perm)[k].at <= MINUTE) :: old(perm)[k]
        decreases todo
      {
        var k :| k in todo;
        todo := todo - {k};
        if now - perm[k].at > MINUTE {
          perm := perm - {k};
        }
      }
    }
  }
}
