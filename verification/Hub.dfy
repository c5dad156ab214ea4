/** internal/controller/hub.go: waking the nodes that wait for a change. */
module Hub {

  /** A channel that carries nothing: it is closed once. Its number says how many
      the hub has made before it. */
  class Channel {
    const id: nat
    var closed: bool

    constructor (id: nat)
      ensures this.id == id && !closed
    {
      this.id, closed := id, false;
    }
  }

  /** The hub's version, and the number of the channel that waiters get. */
  datatype View = View(version: int, current: nat)

  function SetTo(h: View, v: int): View
  {
    if v > h.version then View(v, h.current + 1) else h
  }

  class HubObject {
    var version: int
    var changed: Channel

    ghost predicate Valid()
      reads this, changed
    {
      !changed.closed
    }

    ghost function Abstract(): View
      reads this, changed
    {
      View(version, changed.id)
    }

    constructor (v: int)
      ensures Valid() && Abstract() == View(v, 0) && fresh(changed)
    {
      version := v;
      changed := new Channel(0);
    }

    /** set: a channel is closed exactly when a newer one takes its place. */
    method Set(v: int)
      requires Valid()
      modifies this, changed
      ensures Valid() && Abstract() == SetTo(old(Abstract()), v)
      ensures old(changed).closed <==> old(changed) != changed
      ensures old(changed) != changed ==> fresh(changed)
    {
      if v > version {
        version := v;
        changed.closed := true;
        changed := new Channel(changed.id + 1);
      }
    }

    /** The locked part of wait: the channel to block on, or none. */
    method Enter(since: int) returns (ch: Channel?)
      requires Valid()
      ensures ch == null <==> version != since
      ensures ch != null ==> ch == changed && !ch.closed && ch.id == Abstract().current
    {
      if version != since {
        return null;
      }
      return changed;
    }
  }

  // ---- every interleaving ----

  type WaiterId = nat

  datatype Waiter = Waiter(since: int, channel: nat)

  /** pending: versions committed to the database that their transactions have
      not told the hub of yet. */
  datatype World = World(hub: View, waiters: map<WaiterId, Waiter>, db: int, pending: set<int>)

  datatype Step =
    /** A transaction commits; its version is the database's next one. */
    | CommitTx
    /** A transaction that has committed tells the hub, at any later time and in
        any order. */
    | Tell(v: int)
    | Wait(w: WaiterId, since: int)
    /** A waiter whose channel is closed goes on. */
    | Wake(w: WaiterId)
    /** A waiter's deadline passes. */
    | Cancel(w: WaiterId)

  /** The channels before the current one are closed. */
  predicate Closed(h: View, channel: nat)
  {
    channel < h.current
  }

  predicate Legal(s: World, step: Step)
  {
    match step
    case CommitTx => true
    case Tell(v) => v in s.pending
    case Wait(w, _) => w !in s.waiters
    case Wake(w) => w in s.waiters && Closed(s.hub, s.waiters[w].channel)
    case Cancel(w) => w in s.waiters
  }

  function Next(s: World, step: Step): World
    requires Legal(s, step)
  {
    match step
    case CommitTx => s.(db := s.db + 1, pending := s.pending + {s.db + 1})
    case Tell(v) => s.(hub := SetTo(s.hub, v), pending := s.pending - {v})
    case Wait(w, since) =>
      if s.hub.version != since then s else s.(waiters := s.waiters[w := Waiter(since, s.hub.current)])
    case Wake(w) => s.(waiters := s.waiters - {w})
    case Cancel(w) => s.(waiters := s.waiters - {w})
  }

  predicate Inv(s: World)
  {
    (forall w :: w in s.waiters ==>
       s.waiters[w].channel <= s.hub.current
       && (s.waiters[w].channel == s.hub.current <==> s.waiters[w].since == s.hub.version)
       && s.waiters[w].since <= s.hub.version)
    && s.hub.version <= s.db
    && (forall v :: v in s.pending ==> v <= s.db)
    && forall v :: s.hub.version < v <= s.db ==> v in s.pending
  }

  lemma StepKeeps(s: World, step: Step)
    requires Inv(s) && Legal(s, step)
    ensures Inv(Next(s, step)) && Next(s, step).hub.version >= s.hub.version
  {
  }

  ghost predicate Runs(s: World, steps: seq<Step>, t: World)
    decreases |steps|
  {
    if steps == [] then s == t else Legal(s, steps[0]) && Runs(Next(s, steps[0]), steps[1..], t)
  }

  lemma {:induction false} RunsKeep(s: World, steps: seq<Step>, t: World)
    requires Inv(s) && Runs(s, steps, t)
    ensures Inv(t) && t.hub.version >= s.hub.version
    decreases |steps|
  {
    if steps != [] {
      StepKeeps(s, steps[0]);
      RunsKeep(Next(s, steps[0]), steps[1..], t);
    }
  }

  /** The hub starts with the database's version. */
  function Start(v: int): World
  {
    World(View(v, 0), map[], v, {})
  }

  /** In every interleaving a waiter is blocked on an open channel exactly as long
      as the hub's version is the one it knows, and the version never decreases. */
  lemma NobodySleepsOn(v: int, steps: seq<Step>, s: World, w: WaiterId)
    requires Runs(Start(v), steps, s) && w in s.waiters
    ensures !Closed(s.hub, s.waiters[w].channel) <==> s.waiters[w].since == s.hub.version
    ensures s.hub.version >= v
  {
    RunsKeep(Start(v), steps, s);
  }

  /** Once every committed transaction has told the hub, whoever is still blocked
      knows the database's own version: no change is missed. */
  lemma NoChangeIsMissed(v: int, steps: seq<Step>, s: World, w: WaiterId)
    requires Runs(Start(v), steps, s) && s.pending == {} && w in s.waiters
    ensures s.hub.version == s.db
    ensures !Closed(s.hub, s.waiters[w].channel) ==> s.waiters[w].since == s.db
  {
    RunsKeep(Start(v), steps, s);
    assert s.hub.version < s.db ==> s.db in s.pending;
  }

  /** Telling the hub of any newer version wakes everybody who waits. */
  lemma TellingWakesAll(v: int, steps: seq<Step>, s: World, news: int, w: WaiterId)
    requires Runs(Start(v), steps, s) && Legal(s, Tell(news)) && news > s.hub.version && w in s.waiters
    ensures Legal(Next(s, Tell(news)), Wake(w))
  {
    RunsKeep(Start(v), steps, s);
  }
}
