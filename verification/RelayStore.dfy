/** internal/relay/server.go: what the relay's server keeps, as a value, and what
    each critical section makes of it. */
module RelayStore {
  import opened Common
  import opened RateLimit
  import opened RelayTables

  const SESSION_IDLE := 120 * SECOND
  const MINUTE := 60 * SECOND
  const MAX_PPS := 20000

  /** A window that has counted nothing. */
  const UNUSED := Window(-SECOND, 0)

  type Address = nat

  /** The secret that the node of a session is welcomed with. */
  type SessionKey = nat

  /** A session object: its identity and what never changes in it. */
  datatype Ref = Ref(num: nat, card: Card, key: SessionKey)

  /** What changes in it. */
  datatype Vars = Vars(addr: Address, last: int, window: Window)

  datatype Perm = Perm(ok: bool, at: int)

  type Perms = map<(NodeId, NodeId), Perm>

  datatype Verdict = Unknown | Yes | No

  /** heap: every session ever made, for a call may still hold one that is in no
      table any more. */
  datatype Store = Store(heap: map<Ref, Vars>, tables: Tables<Ref>, perm: Perms)

  const CARD: Ref -> Card := (r: Ref) => r.card

  /** The cached answer, if it is less than a minute old. */
  function Cached(perm: Perms, src: NodeId, dst: NodeId, now: int): Verdict
  {
    if (src, dst) in perm && now - perm[(src, dst)].at < MINUTE
    then if perm[(src, dst)].ok then Yes else No
    else Unknown
  }

  /** hello. */
  function Welcomed(st: Store, r: Ref, from: Address, now: int): Store
  {
    st.(heap := st.heap[r := Vars(from, now, UNUSED)], tables := Install(st.tables, CARD, r))
  }

  predicate Has(st: Store, id: SessionId)
  {
    id in st.tables.byID && st.tables.byID[id] in st.heap
  }

  /** Handle, first section: the frame is counted. */
  function Counted(st: Store, id: SessionId, now: int): Store
  {
    if !Has(st, id) then st
    else
      var r := st.tables.byID[id];
      st.(heap := st.heap[r := st.heap[r].(window := Count(st.heap[r].window, now))])
  }

  /** The session of the frame, if it does not flood. */
  function Found(st: Store, id: SessionId, now: int): Option<Ref>
  {
    if Has(st, id) && Admits(st.heap[st.tables.byID[id]].window, now, MAX_PPS) then Some(st.tables.byID[id]) else None
  }

  /** Handle, second section. */
  function Touched(st: Store, r: Ref, from: Address, at: int): Store
  {
    if r in st.heap then st.(heap := st.heap[r := st.heap[r].(addr := from, last := at)]) else st
  }

  function Recorded(st: Store, src: NodeId, dst: NodeId, ok: bool, at: int): Store
  {
    st.(perm := st.perm[(src, dst) := Perm(ok, at)])
  }

  /** Handle, last section: the session the destination has now. */
  function Destination(st: Store, dst: NodeId): Option<Ref>
  {
    if dst in st.tables.byNode && st.tables.byNode[dst] in st.heap then Some(st.tables.byNode[dst]) else None
  }

  function Idle(st: Store, now: int): set<SessionId>
  {
    set id | Has(st, id) && id in st.tables.byID && now - st.heap[st.tables.byID[id]].last > SESSION_IDLE
  }

  function Without(t: Tables<Ref>, idle: set<SessionId>): Tables<Ref>
  {
    Tables(t.byID - idle, map n | n in t.byNode && t.byNode[n].card.id !in idle :: t.byNode[n])
  }

  /** expireLoop: idle sessions leave both tables. */
  function Expired(st: Store, now: int): Store
  {
    st.(tables := Without(st.tables, Idle(st, now)))
  }

  function PermsExpired(st: Store, now: int): Store
  {
    st.(perm := map k | k in st.perm && now - st.perm[k].at <= MINUTE :: st.perm[k])
  }
}
