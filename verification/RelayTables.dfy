/** internal/relay/server.go: the two session tables. The functions are generic
    in what a session is: an object for the server, a reference number in the
    state machine over all interleavings. */
module RelayTables {

  type SessionId = nat
  type NodeId = nat

  /** What a session never changes. */
  datatype Card = Card(id: SessionId, node: NodeId)

  datatype Tables<R> = Tables(byID: map<SessionId, R>, byNode: map<NodeId, R>)

  /** hello: a node's new session takes the place of its old one. */
  function Install<R>(t: Tables<R>, card: R -> Card, ss: R): Tables<R>
  {
    var c := card(ss);
    var byID := if c.node in t.byNode then t.byID - {card(t.byNode[c.node]).id} else t.byID;
    Tables(byID[c.id := ss], t.byNode[c.node := ss])
  }

  /** expireLoop for one idle session; one replaced meanwhile keeps its successor. */
  function Drop<R(==)>(t: Tables<R>, card: R -> Card, id: SessionId): Tables<R>
  {
    if id !in t.byID then t
    else
      var ss := t.byID[id];
      var n := card(ss).node;
      Tables(t.byID - {id}, if n in t.byNode && t.byNode[n] == ss then t.byNode - {n} else t.byNode)
  }

  /** Each table is the inverse of the other, so a node has at most one session. */
  predicate Mutual<R(==)>(t: Tables<R>, card: R -> Card)
  {
    (forall id :: id in t.byID ==>
       var c := card(t.byID[id]); c.id == id && c.node in t.byNode && t.byNode[c.node] == t.byID[id])
    && (forall n :: n in t.byNode ==>
          var c := card(t.byNode[n]); c.node == n && c.id in t.byID && t.byID[c.id] == t.byNode[n])
  }

  lemma InstallKeeps<R>(t: Tables<R>, card: R -> Card, ss: R)
    requires Mutual(t, card) && card(ss).id !in t.byID
    ensures Mutual(Install(t, card, ss), card)
  {
    var c, u := card(ss), Install(t, card, ss);
    forall n | n in u.byNode
      ensures var d := card(u.byNode[n]); d.node == n && d.id in u.byID && u.byID[d.id] == u.byNode[n]
    {
      if n != c.node {
        var d := card(t.byNode[n]);
        assert d.id in t.byID && t.byID[d.id] == t.byNode[n];
        if c.node in t.byNode {
          assert card(t.byNode[c.node]).id in t.byID;
        }
      }
    }
  }

  lemma DropKeeps<R>(t: Tables<R>, card: R -> Card, id: SessionId)
    requires Mutual(t, card)
    ensures Mutual(Drop(t, card, id), card)
  {
  }

  /** Two nodes never share a session, nor one node two. */
  lemma OneSessionEach<R>(t: Tables<R>, card: R -> Card, a: SessionId, b: SessionId)
    requires Mutual(t, card) && a in t.byID && b in t.byID && card(t.byID[a]).node == card(t.byID[b]).node
    ensures a == b
  {
    assert t.byNode[card(t.byID[a]).node] == t.byID[a];
    assert t.byNode[card(t.byID[b]).node] == t.byID[b];
  }
}
