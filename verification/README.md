# A verified model of zeropentime's protocols

zeropentime joins machines into rooms: virtual local networks over AmneziaWG
with a controller, a relay, STUN and gossip between the members. This project
models the parts of it that keep state or speak a wire format, and proves what
they are for. Every main result is about all inputs, all runs or all
interleavings.

| modules | component | main results |
|---|---|---|
| `Uapi`, `PeersDiff`, `Room` | `internal/room/room.go` | exactly when the difference between two peer lists leaves the device as the whole list would; keepalives are right in every interleaving with their timers |
| `Broadcast`, `BroadcastAuth`, `BroadcastRead`, `BroadcastRuns`, `RateLimit` | `internal/tunwrap/broadcast.go` | wrapping round-trips, and on the device after any run nobody sends in another member's name; reading in place accounts for every packet over every run; broadcasts are limited |
| `Gossip`, `GossipProtocol` | `internal/node/node.go`, `gossip.go` | what rolls a node back: its restart, and nothing else in any interleaving; quiet means agreed |
| `RelayTables`, `RelayStore`, `Relay`, `RelayRuns` | `internal/relay/server.go` | both tables agree, and every forwarded frame names the node that was given its key and is permitted, in every interleaving of the lock sections |
| `AclPolicy`, `AclFilter`, `AclFilterRuns` | `internal/acl/acl.go`, `filter.go` | why a packet passes, and which replies always do |
| `Strings`, `Decimal`, `AclText`, `AclRoundTrip` | `internal/acl/acl.go` | exactly which lists of rules survive being printed and read |
| `Bencode`, `BencodeLaws`, `BencodeCanon` | `internal/dht/bencode.go` | exactly which values survive, and which messages; encoding is prefix-free |
| `DiscoPaths`, `DiscoState`, `Disco`, `DiscoRuns`, `DiscoSafety` | `internal/node/disco.go` | the tables agree in every reachable state, exactly when peers are found by key, paths are confirmed, switching settles |
| `Hosts`, `ControllerDb`, `Controller`, `ControllerRuns` | `internal/controller/service.go`, `internal/store/store.go` | distinct usable addresses, invite accounting and bans over every run |
| `Hub` | `internal/controller/hub.go` | nobody sleeps through a change |
| `Stun` | `internal/stun/stun.go` | what a response says, on any bytes; round trip |
| `Obfs` | `internal/obfs/obfs.go` | what holds of the parameters for every secret |
| `Ipv4`, `Common` | | addresses, networks and big-endian words; what several modules share |

Code that changes state is modelled as classes and methods with loops, each
proved against a function on values; the theorems are lemmas about those
functions and about state machines that take them for their steps. Maps that Go visits in
any order are visited in any order here too: a method chooses the order, and
its contract holds for whatever it was.

## How the world is modelled

- An IPv4 address is a number below 2^32, an address with a port an opaque
  value, time an integer that never goes back, a random ID a fresh number.
- Each section of code under one lock is one atomic step. A call that lets go
  of the lock in between is a step for each section and state of its own
  between them; where it reads the clock before it has the lock, the reading is
  any earlier time.
- A signature is membership in a set of signed payloads. A session key of the
  relay is a fresh number, handed to one node; a frame carries the key it was
  sealed under and opens with that key only. A sealed packet of the path finder
  is the identity of whoever holds the key. A transaction on the
  database is a copy that is committed or thrown away.
- The AmneziaWG device is a table from key to preshared key, endpoint,
  keepalive and allowed networks, driven by the lines of its configuration
  protocol; giving a network to one peer takes it from any other. The lines are
  values, and the device accepts them all.

## What the model found

- `PeersDiff.RepeatedKeyMisconfigures`: nothing that verifies a signed member
  list compares its keys (`internal/pki/pki.go:122-132`), and a running room
  takes it unvalidated (`internal/node/node.go:563-583`). If a list repeats a
  key, and its last entry is as in the old table and an earlier one is not, the
  device keeps the earlier entry's networks while the table says otherwise.
  `PeersDiff.DiffRepresents` says exactly which lists are configured right.
- `GossipProtocol.RestartForgets`: the versions of a controller's rooms are kept
  in memory only, so a restarted node takes a config older than one it held,
  though the repository's documents say that older versions are rejected. By
  `GossipProtocol.WhatRollsBack` nothing else takes a node back, and a local
  room goes back no further than its state file
  (`GossipProtocol.LocalRoomsRemember`).
- `DiscoSafety.SharedKeyIsLost`: if two nodes are told to hold one disco key,
  forgetting one makes the other unreachable by key. `DiscoSafety.KeysDecide`
  says that every known peer is always found exactly if there are no such two.
- `BencodeCanon.OnlyCanonical`: decoding reads plus signs, leading zeros and
  repeated or unordered keys as well, so a decoded message is not always what
  its value encodes to (`BencodeLaws.OtherSpellings` has two spellings of 5); it
  is exactly if it is canonical.
- `AclRoundTrip.ParseOfString`: rules with an empty selector list, which the
  parser accepts for the input `,`, never survive printing; all other parsed
  lists do.
- `Obfs.SecondPaddingBound`: the padding S2 can be 144 although the comment in
  the code says at most 143, exactly when two derived bytes collide in the one
  way given there.
- `RateLimit.BoundIsReached`: a window's limit can be almost doubled within one
  second, and `RateLimit.LessThanTwice` says it is never more than that. The relay
  reads the clock before it takes its lock (`internal/relay/server.go:179`), so
  frames that wait there can be counted by old readings: each second of waiting
  lets one limit more through (`RateLimit.LateLimit`,
  `RateLimit.LateBoundIsReached`).
- `Stun.ResponseRoundTrip`: an IPv6 zone does not survive a STUN response.

## Model

| member | source | states |
|---|---|---|
| `PeersDiff.Diff` | internal/room/room.go:213-249 | the loops of `peersDiff` compute the script of changed peers followed by removals in some order, the new table, and the keys whose keepalive is deferred |
| `PeersDiff.RenderPeer` | internal/room/room.go:217-243 | the lines of one changed peer, and whether its keepalive is deferred |
| `PeersDiff.RenderRemovals` | internal/room/room.go:244-248 | a removal for exactly the keys the new list lacks, each once, in any order |
| `PeersDiff.RunAllowed` | internal/room/room.go:239-241 | giving a peer its networks takes them from every other peer and leaves it exactly those |
| `PeersDiff.RunPeer` | internal/room/room.go:217-243 | what the device makes of the lines of one peer: its own entry as listed, its networks taken from the others, nothing else touched |
| `PeersDiff.RunUpdates` | internal/room/room.go:217-243 | after all updates each field of each peer is as it was last sent, and what was not sent is lost only where the list gives it to others, though networks move or swap between peers half-way |
| `PeersDiff.RunRemovals` | internal/room/room.go:244-248 | the removals delete exactly their keys, whatever their order |
| `PeersDiff.DiffRepresents` | internal/room/room.go:213-249 | main result: on every device state that represents the old list, for every list whose different keys list disjoint networks and whatever order the removals come in, the device ends representing the new list exactly if no old key has a last entry that leaves unsent a field an earlier entry of the key changed: networks because it is unchanged, the keepalive because it is the old one |
| `PeersDiff.DiffReconfigures` | internal/room/room.go:213-249 | so with distinct keys it always does: same keys, exact networks, configured keepalive (0 only for deferred keys), and an endpoint the device learned stays unless the list has a new one |
| `PeersDiff.DiffRefinesFullConfiguration` | internal/room/room.go:213-249 | the result has the keys, preshared keys and networks of a configuration from scratch, and its keepalives but for those not yet on |
| `PeersDiff.EmptyDiff` | internal/room/room.go:176-179 | nothing is rendered for the list exactly when every peer of it is unchanged |
| `PeersDiff.RepeatedKeyMisconfigures` | internal/room/room.go:213-249 | a list that `VerifyRoomConfig` lets through, for it does not compare keys: an entry with other networks and then one as in the old table leaves the device with the other networks, for every such pair of entries and every device, and the next list without the repetition renders nothing that would mend it |
| `Room.Room.SetPeers` | internal/room/room.go:171-190 | the new state is the one of the step function, for some order of the removals; an empty script leaves the old table in place |
| `Room.Room.StartTimers` | internal/room/room.go:185-189 | one timer for each deferred key |
| `Room.Room.EnableKeepalive` | internal/room/room.go:197-208 | a timer that fires sets the keepalive of a peer that is still there and wants one, and does nothing after the room is closed |
| `Room.SetPeersConfigures` | internal/room/room.go:171-190 | one call leaves the device configured from the list, late keepalives aside, exactly if no peer is left with what an earlier entry of its key set |
| `Room.DistinctIsLegal` | internal/room/room.go:171-190 | so it does for every list without repeated keys and networks |
| `Room.StepConfigures` | internal/room/room.go:171-208 | every step of such a list, a timer, a roaming peer or the closing keeps that |
| `Room.AlwaysConfigured` | internal/room/room.go:171-208 | over every interleaving of such lists, timers and roaming, each keepalive is the configured one, or 0 with a timer for the key still pending |
| `Room.KeepaliveAfterTimers` | internal/room/room.go:171-208 | once all timers have fired the device represents the list exactly |
| `Broadcast.Checksum` | internal/tunwrap/broadcast.go:299-311 | the 32-bit accumulating loop with its carries computes the one's complement of the one's complement sum of RFC 1071, section 1 |
| `Broadcast.SumsAgree` | internal/tunwrap/broadcast.go:299-311 | carrying at the end is the same as carrying at each addition |
| `Broadcast.ChecksumVerifies` | internal/tunwrap/broadcast.go:299-311 | a header that holds the checksum over its zeroed field sums to all ones (RFC 791, section 3.1) |
| `Broadcast.PutHeader` | internal/tunwrap/broadcast.go:163-171 | the header fields written into the packet, checksum still zero |
| `Broadcast.Wrap` | internal/tunwrap/broadcast.go:160-177 | the packet built in place is the header, its checksum and the original bytes |
| `Broadcast.WrappedHeaderVerifies` | internal/tunwrap/broadcast.go:160-177 | every wrapped header passes a receiver's checksum |
| `Broadcast.WrapRoundTrip` | internal/tunwrap/broadcast.go:131-207 | for all members, a forwarded broadcast comes out of the addressed one unchanged exactly when that one shares broadcasts, has the sender in its subnet and the destination for a group, and the packet's own length field is right |
| `Broadcast.UnwrapAuthentic` | internal/tunwrap/broadcast.go:183-207 | whatever `unwrap` hands on has inner source equal to outer source and a group destination |
| `Broadcast.WrapIsForOneMember` | internal/tunwrap/broadcast.go:183-207 | a wrapped packet is nothing to any other member |
| `BroadcastAuth.HostDecides` | internal/tunwrap/broadcast.go:11-15 | on a device that represents a table of networks listed with one peer each, an address listed on its own for a peer is taken from exactly that peer, whatever wider networks others have |
| `BroadcastAuth.MembersAreThemselves` | internal/room/room.go:171-208 | the same after every run of lists, timers and roaming peers |
| `BroadcastAuth.NobodyForges` | internal/tunwrap/broadcast.go:11-15 | main result: after every such run, if a packet from peer k unwraps to a broadcast whose source is listed for peer j, then k is j |
| `BroadcastAuth.MembersAreHeard` | internal/tunwrap/broadcast.go:131-207 | and a broadcast a listed member forwards is taken from peer k and comes out unchanged exactly when k is that member and the receiver's subnet and mode take it |
| `RateLimit.LateLimit` | internal/relay/server.go:179-195 | whatever the order in which the clock was read for the packets, a second in which they are counted admits fewer than two limits, and one more for each second or part of one that readings are late |
| `RateLimit.LateBoundIsReached` | internal/relay/server.go:179-195 | for readings that are whole seconds late that bound is exact, for every positive limit |
| `RateLimit.LessThanTwice` | internal/tunwrap/broadcast.go:151-157 | with readings on time any half-open second of any run admits fewer than twice the limit of a window |
| `RateLimit.BoundIsReached` | internal/tunwrap/broadcast.go:151-157 | 2*limit - 1 is reached, so the bound is exact |
| `BroadcastRead.Device.Allow` | internal/tunwrap/broadcast.go:151-157 | one packet more in the window, admitted if within the limit |
| `BroadcastRead.Device.Share` | internal/tunwrap/broadcast.go:231-240 | an admitted broadcast joins the queue once for each member, in order |
| `BroadcastRead.Device.DrainLocked` | internal/tunwrap/broadcast.go:249-263 | buffers are filled from the front of the queue; what does not fit a buffer is dropped, the rest stays in order |
| `BroadcastRead.Keep` | internal/tunwrap/broadcast.go:241-247 | a packet moves to the front of the buffers without disturbing those in front or the ones still to be read, though buffers share one array of sizes |
| `BroadcastRead.Device.FilterOne` | internal/tunwrap/broadcast.go:222-247 | one packet of the batch is either queued or kept, in place |
| `BroadcastRead.Device.FilterNext` | internal/tunwrap/broadcast.go:222-247 | the body of the loop over the buffers: the packet in the next one |
| `BroadcastRead.Device.Filter` | internal/tunwrap/broadcast.go:222-247 | the compacted buffers hold exactly the packets that are no broadcasts, unmodified and in order |
| `BroadcastRead.Device.ReadBatch` | internal/tunwrap/broadcast.go:210-247 | kept packets followed by pending ones, as the step function says |
| `BroadcastRead.Device.Read` | internal/tunwrap/broadcast.go:210-247 | a call in place refines the step function on sequences |
| `BroadcastRuns.DrainConserves` | internal/tunwrap/broadcast.go:249-263 | draining takes packets off the front of the queue, sends in order exactly those of them that fit a buffer, and stops only for want of buffers or packets |
| `BroadcastRuns.DrainSplits` | internal/tunwrap/broadcast.go:249-263 | for every queue, sent packets and those of the rest that fit are those of the queue that fit |
| `BroadcastRuns.AllOrNone` | internal/tunwrap/broadcast.go:249-263 | a broadcast fits the buffers for every member or for none |
| `BroadcastRuns.OnePerMember` | internal/tunwrap/broadcast.go:234-238 | a broadcast makes one packet for each member, each wrapped for it |
| `BroadcastRuns.Conservation` | internal/tunwrap/broadcast.go:210-263 | main result: over every run of calls the kept packets come out once, unmodified, in order; the queue is the end of the admitted broadcasts, once for each member of that moment; and what is no longer in it was sent in order exactly if a buffer could hold it |
| `BroadcastRuns.NothingIsDropped` | internal/tunwrap/broadcast.go:210-263 | so with buffers that hold every wrapped broadcast, sent packets followed by pending ones are exactly the admitted broadcasts |
| `BroadcastRuns.StormIsLimited` | internal/tunwrap/broadcast.go:151-157 | over every run fewer than twice the limit of broadcasts are shared in any second |
| `BroadcastRuns.DrainProgress` | internal/tunwrap/broadcast.go:249-263 | a call with buffers and packets pending shortens the queue |
| `Gossip.Node.RoomFromConfig` | internal/node/node.go:598-625 | verification, the other-room and rollback errors, and the version, the signed config, its members and the addresses of its admins as they are recorded |
| `Gossip.Node.RecordMembers` | internal/node/node.go:618-622 | the loop over the members records exactly their IDs, and the addresses of the admins |
| `Gossip.Node.Apply` | internal/node/node.go:501-591 | the loop over the netmap and the start and stop of rooms leave the state of the step function, for some set of rooms that could be started |
| `Gossip.Node.StopRooms` | internal/node/node.go:549-560 | exactly the rooms of this controller that are no longer wanted or changed stop |
| `Gossip.Node.StartRooms` | internal/node/node.go:561-591 | exactly the wanted rooms that could be started run as wanted |
| `Gossip.Node.TakeGossip` | internal/node/gossip.go:274-298 | a config from a peer replaces the one in a copy of the last netmap; no room, no controller or no netmap is an error |
| `GossipProtocol.ApplyKeeps` | internal/node/node.go:501-626 | whatever the netmap, no version decreases and the served config stays signed, for its room and of the recorded version |
| `GossipProtocol.GossipTakesNewer` | internal/node/gossip.go:274-302 | on whatever netmap it is spliced into, a trusted config brings the node to the newer of the two versions |
| `GossipProtocol.StepKeeps` | internal/node/gossip.go:131-313 | every protocol step keeps the invariant over all nodes and messages |
| `GossipProtocol.WhatRollsBack` | internal/node/node.go:598-617 | a step takes a node back to an older version of a room exactly if it restarts a node that has one |
| `GossipProtocol.NeverRollsBack` | internal/node/node.go:598-617 | over every interleaving of signing, stale polls, re-applies, gossip and restarts of other nodes no version of a room decreases on a node that does not restart |
| `GossipProtocol.FetchReachesAnnounced` | internal/node/gossip.go:131-302 | a fetch after an announce ends at least at the announced version, whatever came between, if the announcing node did not restart before it served |
| `GossipProtocol.AlongPath` | internal/node/gossip.go:168-187 | along a path of nodes that hear each other versions do not decrease when nothing is newer than its receiver |
| `GossipProtocol.QuietMeansAgreed` | internal/node/gossip.go:168-187 | on a connected graph with no announce newer than its receiver all nodes have one version |
| `GossipProtocol.GossipSettles` | internal/node/gossip.go:131-313 | once nobody signs a newer version of the room or restarts, only so many steps can bring a node something newer |
| `GossipProtocol.BehindCatchesUp` | internal/node/gossip.go:214-302 | while a node is behind one it hears, serving and fetching brings it a newer config |
| `GossipProtocol.RestartForgets` | internal/node/node.go:610-617 | every config of the room older than the one a node holds is refused before a restart, and taken after it |
| `GossipProtocol.LocalRoomsRemember` | internal/node/localsync.go:79-90 | a local room takes nothing older than its state file held: the node applies that config again when it starts |
| `RelayTables.InstallKeeps` | internal/relay/server.go:260-267 | a new session keeps the two tables mutually inverse |
| `RelayTables.DropKeeps` | internal/relay/server.go:299-306 | expiring a session keeps them so, and spares a successor |
| `RelayTables.OneSessionEach` | internal/relay/server.go:260-267 | two session IDs never belong to one node |
| `Relay.Server.Hello` | internal/relay/server.go:260-267 | the section of `hello` is the step `Welcomed` of the store: the session is in both tables and an older one of the node in neither |
| `Relay.Server.Lookup` | internal/relay/server.go:180-195 | the first section is the step `Counted`: the session of the frame unless it floods, its window counted |
| `Relay.Server.Touch` | internal/relay/server.go:201-205 | the second section is the step `Touched`; it writes to a session that may be in no table any more |
| `Relay.Server.PermLookup` | internal/relay/server.go:273-281 | the cached answer if it is less than a minute old |
| `Relay.Server.PermRecord` | internal/relay/server.go:282-286 | the answer is recorded with the time of the question, as the step `Recorded` says |
| `Relay.Server.Route` | internal/relay/server.go:219-229 | the session the destination has now |
| `Relay.Server.Expire` | internal/relay/server.go:297-307 | the loop over the sessions is the step `Expired`: both tables lose exactly the idle sessions |
| `Relay.Server.ExpirePerms` | internal/relay/server.go:308-314 | exactly the answers older than a minute go, as the step `PermsExpired` says |
| `RelayRuns.KeysStep` | internal/relay/server.go:233-270 | no step gives a key to a second node or parts a session from the node its key was given to |
| `RelayRuns.AlwaysSound` | internal/relay/server.go:171-317 | under every interleaving of the critical sections the tables stay mutually inverse, and every forwarded frame names the node that was given the key it was sealed under, is sealed with a key given to its destination, and rests on a yes recorded less than a minute before |
| `RelayRuns.Reachable` | internal/relay/server.go:171-317 | the same from the empty server |
| `RelayRuns.SessionIsLimited` | internal/relay/server.go:179-195 | no session gets twice its limit through in any second if no call waits between reading the clock and counting its frame, and one limit more for each second, or part of one, that calls may wait |
| `RelayRuns.ActiveSurvives` | internal/relay/server.go:297-307 | a session whose recorded time is at most two minutes before the reading of the expiry is not expired |
| `AclPolicy.Allowed` | internal/acl/acl.go:239-257 | the verdict is that some rule allows, or that there is none; the index is the least of a rule that allows |
| `AclPolicy.Any` | internal/acl/acl.go:259-266 | some selector matches |
| `AclPolicy.MoreRulesAllowMore` | internal/acl/acl.go:239-257 | adding rules to a non-empty list only allows more |
| `AclPolicy.OrderDoesNotMatter` | internal/acl/acl.go:239-257 | permuting the rules keeps the verdict |
| `AclPolicy.FirstRuleForbids` | internal/acl/acl.go:239-242 | monotonicity fails at the empty list: the first rule forbids |
| `AclFilter.Filter.Sweep` | internal/acl/filter.go:79-86 | a full table loses the flows over five minutes old, at most once a second |
| `AclFilter.Filter.RememberLocked` | internal/acl/filter.go:77-90 | a flow is remembered unless the table is full after the sweep |
| `AclFilter.Filter.Outbound` | internal/acl/filter.go:67-75 | a packet sent is remembered |
| `AclFilter.Filter.Inbound` | internal/acl/filter.go:92-128 | the answer and the new table for every packet: later fragments, gossip, replies, answers to ICMP and the policy |
| `AclFilterRuns.TableAccounted` | internal/acl/filter.go:66-128 | every entry has a chain of packets behind it, gaps under five minutes, back to one sent or allowed; the table never exceeds 65536 |
| `AclFilterRuns.PassIsJustified` | internal/acl/filter.go:92-128 | every first fragment that passes is allowed, is gossip to this node, or answers a flow with such a chain |
| `AclFilterRuns.OutboundRemembers` | internal/acl/filter.go:67-90 | a packet sent is remembered exactly when the swept table has room |
| `AclFilterRuns.FlowLasts` | internal/acl/filter.go:77-128 | a flow is not forgotten for five minutes, whatever happens |
| `AclFilterRuns.ReplyPasses` | internal/acl/filter.go:66-128 | a reply within five minutes of a packet sent while the table had room passes |
| `AclText.Parse` | internal/acl/acl.go:54-71 | the loop over the lines reads what `Reading` says: all lines that count are rules, at most 500 |
| `AclText.ParseRule` | internal/acl/acl.go:73-99 | one line is read as the words say |
| `AclText.PortWords` | internal/acl/acl.go:89-97 | the nested loops read every port range of every word |
| `AclText.SplitSel` | internal/acl/acl.go:101-109 | the pieces between commas, trimmed, the empty ones left out |
| `AclText.String` | internal/acl/acl.go:176-186 | one line for each rule |
| `AclText.RenderRule` | internal/acl/acl.go:178-182 | the line of a rule |
| `AclRoundTrip.RangeRoundTrip` | internal/acl/acl.go:156-172 | printed port numbers are read back |
| `AclRoundTrip.PortsRoundTrip` | internal/acl/acl.go:188-199 | a printed port range parses to itself, in one word without commas |
| `AclRoundTrip.ParsedPortsAreGood` | internal/acl/acl.go:140-173 | every port range that is read is one that can be printed |
| `AclRoundTrip.SelectorsRoundTrip` | internal/acl/acl.go:101-109 | joined selectors come apart again |
| `AclRoundTrip.FieldsOfRule` | internal/acl/acl.go:176-182 | a printed rule is one line, and its fields are its words but for the empty ones |
| `AclRoundTrip.RuleRoundTrip` | internal/acl/acl.go:73-99 | a good rule with selectors on both sides survives |
| `AclRoundTrip.EmptyListIsLost` | internal/acl/acl.go:73-109 | one with an empty list never does |
| `AclRoundTrip.ParsedRuleIsGood` | internal/acl/acl.go:73-138 | whatever is read as a rule is good |
| `AclRoundTrip.ReadingIsGood` | internal/acl/acl.go:54-71 | the same for whole texts |
| `AclRoundTrip.ParseOfString` | internal/acl/acl.go:54-199 | `Parse(String(rules))` gives `rules` exactly if there are at most 500 and each is well-formed with no empty selector list, for every list of rules |
| `Bencode.EncodeTo` | internal/dht/bencode.go:18-55 | the buffer gains the one encoding of the value, in whatever order its dictionaries are ranged over |
| `Bencode.EncodeDict` | internal/dht/bencode.go:37-50 | collecting the keys in any order and sorting them gives the encoding in the order of the keys |
| `Bencode.OneOrder` | internal/dht/bencode.go:42-42 | there is one sorted order of a set of keys |
| `Bencode.Encode` | internal/dht/bencode.go:58-62 | the whole encoding |
| `Bencode.DecodeOne` | internal/dht/bencode.go:77-142 | the recursive parser with its loops computes the decoding function |
| `Bencode.DecodeList` | internal/dht/bencode.go:92-106 | the loop over the elements of a list |
| `Bencode.DecodeDict` | internal/dht/bencode.go:107-129 | the loop over the entries of a dictionary: keys are strings, the last of equal keys wins |
| `Bencode.DecodedOne` | internal/dht/bencode.go:77-142 | what is left is a proper end of the input |
| `Bencode.DecodedItems` | internal/dht/bencode.go:92-106 | the same after the elements of a list |
| `Bencode.DecodedEntries` | internal/dht/bencode.go:107-129 | the same after the entries of a dictionary |
| `Bencode.Decode` | internal/dht/bencode.go:66-75 | a message is one value and nothing after it |
| `BencodeLaws.IntReads` | internal/dht/bencode.go:82-91 | every 64-bit integer is read back |
| `BencodeLaws.StringReads` | internal/dht/bencode.go:130-139 | every string is read back, unless it is longer than the length can say |
| `BencodeLaws.DecodeOfEncode` | internal/dht/bencode.go:18-142 | decoding an encoding, whatever follows, gives the value and what follows if no part lies deeper than 32, and fails if one does |
| `BencodeLaws.MessageRoundTrip` | internal/dht/bencode.go:58-75 | the same for whole messages |
| `BencodeLaws.PrefixFree` | internal/dht/bencode.go:18-55 | no encoding begins another one, so encoding is injective, even for values nested too deep to be read |
| `BencodeLaws.DecodedFits` | internal/dht/bencode.go:77-142 | what is decoded lies within the depth |
| `BencodeLaws.MessagesCarry` | internal/dht/bencode.go:58-75 | the values that some message carries are exactly those that survive encoding and decoding |
| `BencodeCanon.PlainIntIff` | internal/dht/bencode.go:82-91 | what is read as a number is printed as it was exactly if it has no plus sign, no leading zero and no minus before zero |
| `BencodeCanon.EncodedIsCanonical` | internal/dht/bencode.go:18-55 | what encoding gives, whatever follows it, is canonical |
| `BencodeCanon.CanonicalIsEncoded` | internal/dht/bencode.go:77-142 | a canonical spelling at the start of any bytes is what encoding the value read gives |
| `BencodeCanon.OnlyCanonical` | internal/dht/bencode.go:58-142 | main result: encoding gives back the very message that was decoded exactly if the message is canonical, which its bytes decide: numbers and lengths plain, the keys of each dictionary once and in order |
| `DiscoPaths.OnePong` | internal/node/disco.go:313-327 | with one round-trip time for each address a pong changes the path exactly if its address has a better class or is over 30% faster |
| `DiscoPaths.ImprovesIsAnOrder` | internal/node/disco.go:362-378 | that comparison is irreflexive and transitive |
| `DiscoPaths.NeverReturns` | internal/node/disco.go:313-327 | an abandoned address is never used again |
| `DiscoPaths.FewSwitches` | internal/node/disco.go:313-327 | there are fewer switches than addresses that answered |
| `DiscoPaths.Settled` | internal/node/disco.go:362-378 | after the last switch no address that answers has a better class, and none of the same class is over 30% faster |
| `DiscoState.Candidates` | internal/node/disco.go:127-145 | the candidates are distinct, at most twelve, and all the addresses there are if fewer than twelve |
| `DiscoState.Hints` | internal/node/disco.go:147-176 | at most twelve hints, none of them a candidate, and all of them if fewer |
| `Disco.CollectCandidates` | internal/node/disco.go:127-145 | the loop collects them |
| `Disco.CollectHints` | internal/node/disco.go:154-159 | the loop collects them |
| `Disco.PeerObject.Pings` | internal/node/disco.go:254-269 | pings go to the targets while fewer than 64 are pending |
| `Disco.PeerObject.Tick` | internal/node/disco.go:213-239 | old pings and a stale path are dropped, and the targets pinged when the interval is over |
| `Disco.PeerObject.OnPing` | internal/node/disco.go:301-312 | a ping is answered, its address learned, and pinged back while there is no path |
| `Disco.PeerObject.OnPong` | internal/node/disco.go:313-327 | a pong counts only for a pending ping to its very address |
| `Disco.Manager.HearOne` | internal/node/disco.go:89-110 | one peer of a controller: a new key makes a new peer in both tables |
| `Disco.Manager.ForgetAllBut` | internal/node/disco.go:119-124 | deleting while ranging leaves exactly the mentioned peers, and drops the keys of the others |
| `Disco.Manager.SetPeers` | internal/node/disco.go:84-125 | the whole of it, in whatever order the peers are ranged over |
| `Disco.Manager.AddHints` | internal/node/disco.go:149-162 | hints for the known ones of the peers |
| `Disco.Manager.AddGossip` | internal/node/disco.go:165-176 | hints from a peer's own card |
| `Disco.Manager.Handle` | internal/node/disco.go:294-328 | a packet reaches the peer that its sender's key leads to, and only it |
| `Disco.Manager.Tick` | internal/node/disco.go:207-241 | every peer once, in any order; whether a path was lost |
| `Disco.Manager.EndpointOf` | internal/node/disco.go:179-186 | the address of a live path |
| `DiscoRuns.SetPeersKeeps` | internal/node/disco.go:84-125 | `setPeers` keeps the tables and lists agreeing and the limits |
| `DiscoRuns.SetPeersFinds` | internal/node/disco.go:84-125 | if the keys of the peers that are not skipped belong to one node each, it keeps every known peer found by its key |
| `DiscoRuns.PingAllKeeps` | internal/node/disco.go:254-269 | at most 64 pings are pending, each an old one or drawn now |
| `DiscoRuns.PingAllSends` | internal/node/disco.go:254-269 | with fresh numbers the pings sent are exactly those written down |
| `DiscoSafety.StepKeeps` | internal/node/disco.go:84-338 | every critical section keeps the whole invariant |
| `DiscoSafety.AlwaysSound` | internal/node/disco.go:84-338 | in every reachable state the known peers are exactly those some controller mentions, every key leads to a known peer that holds it, pending pings stay at most 64 and learned addresses at most 12 |
| `DiscoSafety.PathsAreConfirmed` | internal/node/disco.go:179-328 | packets go to an address only if the holder of the peer's key answered a ping sent to that very address less than a minute before |
| `DiscoSafety.OneConfirmationEach` | internal/node/disco.go:313-318 | each ping confirms at most once |
| `DiscoSafety.NoReflection` | internal/node/disco.go:294-312 | only known peers get answers, only at the address they wrote from; a stranger's packet changes nothing |
| `DiscoSafety.TickPings` | internal/node/disco.go:222-239 | a tick pings only addresses known of the peer, at most every two seconds, and while a direct path is live only that path, at most every twenty |
| `DiscoSafety.KeysDecide` | internal/node/disco.go:84-125 | main result: every run over a set of peers told by controllers keeps every known peer found by its key exactly if no two unskipped ones of the set are different nodes with one key |
| `DiscoSafety.AlwaysFound` | internal/node/disco.go:84-125 | as long as no two nodes are told to hold one key, every known peer is found by its key; peers without a key and inactive ones do not count |
| `DiscoSafety.SharedKeyMisleads` | internal/node/disco.go:89-110 | for all two nodes told to hold one key: both become known, and the key leads to the second |
| `DiscoSafety.SharedKeyIsLost` | internal/node/disco.go:119-124 | and when the second is forgotten the first is known but not found by its key |
| `Hosts.AllocateIP` | internal/controller/service.go:630-641 | the search loop finds the lowest free address |
| `Hosts.LowestIsLowest` | internal/controller/service.go:616-641 | it is usable, free and the lowest such, and there is none exactly if all are taken |
| `Hosts.AddressLeft` | internal/controller/service.go:616-641 | with fewer addresses taken than the subnet has hosts one is found |
| `Controller.Tx.UseInvite` | internal/store/store.go:770-782 | an invite is found by room, token, time and uses, and one use is taken unless it is unlimited |
| `Controller.Tx.ListMembers` | internal/store/store.go:712-715 | all members of a room, any status |
| `Controller.Tx.Join` | internal/controller/service.go:710-762 | the body of the transaction of `Join`, every branch |
| `Controller.Tx.Act` | internal/controller/service.go:511-565 | the body of `MemberAction`, every action |
| `Controller.Tx.Update` | internal/controller/service.go:581-613 | the body of `UpdateMember` |
| `Controller.Service.Change` | internal/controller/service.go:78-93 | a failed transaction leaves nothing and wakes nobody; a committed one bumps the version and tells the hub, which closes the channel pollers wait on and ends at the version of the database |
| `Controller.Service.Join` | internal/controller/service.go:704-768 | the operation as a function of the database, rollback included; addresses stay distinct and the hub in step |
| `Controller.Service.Leave` | internal/controller/service.go:771-789 | the same for `Leave`; a banned member stays |
| `Controller.Service.MemberAction` | internal/controller/service.go:510-566 | the same for approval, ban, kick, routes and exit |
| `Controller.Service.UpdateMember` | internal/controller/service.go:569-614 | the same for a changed name or address |
| `Controller.Service.CreateInvite` | internal/controller/service.go:406-442 | the same for a new invite; no limit is written -1 |
| `Controller.Service.RevokeInvite` | internal/controller/service.go:444-454 | the same for a revocation |
| `ControllerRuns.WhoJoins` | internal/controller/service.go:704-762 | a new node gets in exactly if it gives its keys, the room exists, the invite can be used, the room is not full and an address is free; it gets the lowest one, and the invite is one use shorter |
| `ControllerRuns.NextKeeps` | internal/controller/service.go:510-789 | no operation breaks the distinctness of addresses, and the database's own unique constraint on them never has to stop one |
| `ControllerRuns.AlwaysDistinct` | internal/controller/service.go:568-641 | over every run the members of a room have different usable addresses of its subnet |
| `ControllerRuns.RoomForOneMore` | internal/controller/service.go:630-641 | while a room has fewer members than its subnet has hosts an address is free |
| `ControllerRuns.OneUse` | internal/store/store.go:770-804 | one event takes at most one use, and only for an admission, but for a revocation that succeeds, which takes all |
| `ControllerRuns.WhoDecides` | internal/controller/service.go:97-106 | an attempt to revoke an invite or to lift a ban succeeds exactly for an admin or the owner of the room |
| `ControllerRuns.InviteAccounting` | internal/store/store.go:770-804 | until a revocation of it succeeds an invite for n uses has admitted exactly n minus the uses it has left, whoever else tries |
| `ControllerRuns.AdmissionIsNew` | internal/controller/service.go:734-762 | an admission makes one new member |
| `ControllerRuns.UsedUpAdmitsNobody` | internal/store/store.go:770-804 | an invite without a use left admits nobody and stays so, in every run |
| `ControllerRuns.RevokedAdmitsNobody` | internal/store/store.go:801-804 | so after a revocation nobody gets in by the invite, whatever happens |
| `ControllerRuns.BanStep` | internal/controller/service.go:510-566 | an event ends a ban exactly if it is an approval, an unban or a kick of that member that succeeds |
| `ControllerRuns.BanHolds` | internal/controller/service.go:725-729 | until such an event a ban outlasts leaving and every attempt to join, and every refused attempt to lift it |
| `ControllerRuns.WhoChanges` | internal/controller/service.go:95-106 | a membership changes only by the node joining or leaving itself, or by an act of an admin or the owner of the room |
| `ControllerRuns.ActsDoAsTold` | internal/controller/service.go:519-560 | what each act of a manager makes of the member; only offered networks apart from the room are approved, only an offered exit |
| `ControllerRuns.VersionsGrow` | internal/controller/service.go:78-93 | every operation that succeeds raises the version by one |
| `Hub.HubObject.Set` | internal/controller/hub.go:19-27 | a newer version closes the channel and makes a new one; another leaves all as it is |
| `Hub.HubObject.Enter` | internal/controller/hub.go:30-39 | the locked part of `wait`: the open channel, or none if the versions differ |
| `Hub.StepKeeps` | internal/controller/hub.go:17-44 | every step keeps the invariant, and the version does not decrease |
| `Hub.NobodySleepsOn` | internal/controller/hub.go:19-44 | in every interleaving a waiter is blocked on an open channel exactly while the hub's version is the one it knows |
| `Hub.NoChangeIsMissed` | internal/controller/service.go:79-93 | once every committed transaction has told the hub, whoever is still blocked knows the database's own version, in whatever order they told it |
| `Hub.TellingWakesAll` | internal/controller/hub.go:19-27 | telling the hub of a newer version lets every waiter go on |
| `Stun.XorIP` | internal/stun/stun.go:95-102 | the exclusive or in place, also with one array for source and target |
| `Stun.XoredTwice` | internal/stun/stun.go:95-102 | done twice it gives the address back |
| `Stun.Response` | internal/stun/stun.go:78-93 | the arrays filled in are a header and one XOR-MAPPED-ADDRESS (sections 6 and 15.2 of RFC 5389) |
| `Stun.ParseAddr` | internal/stun/stun.go:143-160 | an address of a known family and sufficient length, else none |
| `Stun.ParseResponse` | internal/stun/stun.go:106-141 | the re-slicing loop ends with what a walk over the whole attributes finds |
| `Stun.FirstXorWins` | internal/stun/stun.go:121-125 | the first well-formed XOR-MAPPED-ADDRESS ends the walk |
| `Stun.LastMappedWins` | internal/stun/stun.go:126-130 | with none the last well-formed MAPPED-ADDRESS counts |
| `Stun.ParseChooses` | internal/stun/stun.go:106-141 | so on any bytes the first of the one kind wins, else the last of the other before the walk ends |
| `Stun.ParseFails` | internal/stun/stun.go:137-140 | with neither there is an error |
| `Stun.ResponseRoundTrip` | internal/stun/stun.go:78-141 | a parsed response gives back the transaction and the unmapped address and port, for every IPv4 and IPv6 address; a zone is lost |
| `Obfs.Shuffle` | internal/obfs/obfs.go:120-124 | the swaps in place are the shuffle function |
| `Obfs.ShuffleKeeps` | internal/obfs/obfs.go:120-124 | the result is a permutation of the quarters, whatever the bytes |
| `Obfs.SpanIsPositive` | internal/obfs/obfs.go:131-133 | the modulus is positive and its subtraction does not wrap |
| `Obfs.HeaderInQuarter` | internal/obfs/obfs.go:126-135 | a header range lies in its quarter, above 4, and its conversions to 32 bits lose nothing |
| `Obfs.Derive` | internal/obfs/obfs.go:114-145 | the loops over the arrays compute the profile |
| `Obfs.HeadersAreDisjoint` | internal/obfs/obfs.go:118-135 | for every derivation output the four ranges are disjoint, within 32 bits, above 4, and over a million values wide |
| `Obfs.OneInEachQuarter` | internal/obfs/obfs.go:118-135 | there is one in each quarter |
| `Obfs.PaddingsAreBounded` | internal/obfs/obfs.go:137-145 | the paddings' bounds, and init and response packets never have one size |
| `Obfs.SecondPaddingBound` | internal/obfs/obfs.go:137-144 | the comment's bound of 143 for S2 is met exactly if r[36] % 128 is not 71 or r[37] % 128 is not 127; else it is 144 |

## Left out

- Sockets, HTTP, TUN devices, the SQL text, operating system calls, the panel and the command line: input and output; only the state they act on is modelled.
- Cryptography (Ed25519, sealed boxes, the header tag, HKDF): opaque, with the assumptions named above; the derivation output of `Derive` is any 64 bytes, and its three derived keys are not part of the result.
- `internal/wgfirewall` and `internal/netstack`: copied third-party code.
- "At most one room carries the internet traffic": not claimed, since the rooms wanted are computed before any of them starts.
- "The same version means the same config": not claimed, since route and exit offers change what is signed without a new version; convergence is stated on version numbers.
- The device's own errors: `IpcSet` is taken to accept the rendered lines, and the rendering of a line as text is not modelled.
- Handing a room's list of peers on to the broadcaster and the gossip tasks: easy.
- The ACL hook inside the broadcaster's `Read`, and packets read but not delivered after an error of the interface.
- BroadcastRuns.Conservation: for distinct buffers of one size in all calls of a run, that hold what the interface delivers, as its callers provide.
- PeersDiff.DiffRepresents: for lists whose different keys list disjoint networks; with a network listed by two keys a difference and a full configuration do differ. PeersDiff.DiffReconfigures, PeersDiff.DiffRefinesFullConfiguration and Room.DistinctIsLegal are for distinct keys besides; what repeated keys do is what `DiffRepresents` decides.
- Room.AlwaysConfigured: for runs of lists that `Room.SetPeersConfigures` says are configured right, which takes in all lists with distinct keys and networks; after another list nothing is claimed.
- Gossip timing: announces are sent, lost, repeated and delayed at will; `fetching` only limits how often a fetch is begun.
- The rest of `roomFromConfig` (endpoints, routes, exit choice, DNS) is one value, computed by a function that is left open, as is whether a wanted room can be started.
- Which peer a packet comes from is the device's choice by the most specific network (`BroadcastAuth.TakesFrom`); nothing is claimed about an address of the subnet that is listed for no member.
- The relay's node ID and its raw bytes are one value; a frame opens exactly with the key it was sealed under, and sealing one does not fail.
- IPv6 in the access rules and the filter, which drops it; names are compared by a folding function that is left open, as are the parsers of addresses and networks.
- `strings.ToLower` beyond the letters that the words of a port range need.
- Bencode values of other Go types, which `Encode` refuses; lengths are mathematical integers, so the sum at line 136 cannot wrap.
- In `Disco` the join packets, the logging and the notification after a change; the local networks are a parameter of each step. `DiscoPaths.FewSwitches` and the lemmas beside it hold for one round-trip time per address and no path gone stale, as the order they are about needs.
- In the controller: tags, exit choices of a member, quotas on rooms, rooms themselves being made, changed and deleted, users and sessions, the audit log. The rooms are any there may be at the start of a run.
- Rows that SQL joins with the nodes table are found without it; the foreign keys of the schema see to that.
- The reasons that go with an error are not modelled, only which kind of error it is.
- `ParseRequest` and `Request` of STUN: parts of what is proved of responses.
- A STUN response for the zero `netip.AddrPort`, which is no address.
