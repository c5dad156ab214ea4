/** The AmneziaWG device as its configuration protocol shows it: a table of
    peers and an interpreter for the lines a configuration is made of. */
module Uapi {
  import opened Ipv4

  type Key = nat  // a public key, read as a big-endian number: bytes.Compare is <

  datatype Line =
    | PublicKey(key: Key)
    | UpdateOnly
    | Remove
    | PresharedKey(psk: string)
    | Endpoint(addr: string)
    | Keepalive(secs: nat)
    | ReplaceAllowedIPs
    | AllowedIP(prefix: Prefix)

  /** A peer inside the device; endpoint "" is a peer without one. */
  datatype DevPeer = DevPeer(psk: string, endpoint: string, keepalive: nat, allowed: set<Prefix>)

  const NEW_PEER := DevPeer("", "", 0, {})

  type Peers = map<Key, DevPeer>

  /** Which peer the next lines are about; Nowhere ignores them. */
  datatype Cursor = Nowhere | At(key: Key, created: bool)

  datatype Device = Device(peers: Peers, cursor: Cursor)

  /** A network belongs to one peer: giving it to k takes it from the others. */
  function GiveAllowed(peers: Peers, k: Key, ps: set<Prefix>): Peers
    requires k in peers
  {
    map j | j in peers ::
      if j == k then peers[j].(allowed := peers[j].allowed + ps)
      else peers[j].(allowed := peers[j].allowed - ps)
  }

  /** One line about the selected peer k, which this device has. */
  function Attribute(d: Device, k: Key, created: bool, l: Line): Device
    requires k in d.peers
  {
    var p := d.peers[k];
    match l
    case UpdateOnly => if created then Device(d.peers - {k}, Nowhere) else d
    case Remove => Device(d.peers - {k}, Nowhere)
    case PresharedKey(psk) => d.(peers := d.peers[k := p.(psk := psk)])
    case Endpoint(a) => d.(peers := d.peers[k := p.(endpoint := a)])
    case Keepalive(n) => d.(peers := d.peers[k := p.(keepalive := n)])
    case ReplaceAllowedIPs => d.(peers := d.peers[k := p.(allowed := {})])
    case AllowedIP(x) => d.(peers := GiveAllowed(d.peers, k, {x}))
    case PublicKey(_) => d
  }

  function Exec(d: Device, l: Line): Device
  {
    if l.PublicKey? then
      if l.key in d.peers then Device(d.peers, At(l.key, false))
      else Device(d.peers[l.key := NEW_PEER], At(l.key, true))
    else if d.cursor.At? && d.cursor.key in d.peers then
      Attribute(d, d.cursor.key, d.cursor.created, l)
    else d
  }

  function Run(d: Device, lines: seq<Line>): Device
    decreases lines
  {
    if lines == [] then d else Run(Exec(d, lines[0]), lines[1..])
  }

  lemma {:induction false} RunAppend(d: Device, a: seq<Line>, b: seq<Line>)
    ensures Run(d, a + b) == Run(Run(d, a), b)
    decreases a
  {
    if a == [] {
      assert a + b == b;
    } else {
      assert (a + b)[0] == a[0] && (a + b)[1..] == a[1..] + b;
      RunAppend(Exec(d, a[0]), a[1..], b);
    }
  }
}
