/** Every interleaving of the relay's critical sections: any number of Handle
    calls between their sections, hellos, expiries and controller answers. */
module RelayRuns {
  import opened Common
  import opened RateLimit
  import opened RelayTables
  import opened RelayStore

  /** A frame as it comes in: the session it is for, the key it was sealed under,
      and what is in it. */
  datatype Frame = Frame(id: SessionId, key: SessionKey, inner: Inner)

  datatype Inner = Ping | Send(dst: NodeId, payload: nat) | Other

  /** A Handle call between two sections; key is what its frame was sealed under. */
  datatype Thread =
    | Opened(ref: Ref, from: Address, at: int, inner: Inner, key: SessionKey)
    | Checking(src: NodeId, dst: NodeId, payload: nat, key: SessionKey)
    | Asking(src: NodeId, dst: NodeId, payload: nat, key: SessionKey, checked: int)
    | Answered(src: NodeId, dst: NodeId, payload: nat, key: SessionKey, checked: int, ok: bool)
    | Permitted(src: NodeId, dst: NodeId, payload: nat, key: SessionKey, checked: int, granted: int)

  /** A frame sent on: whose it says it is, the key the frame it comes from was
      sealed under, the session it is sealed for, and on what grounds it went. */
  datatype Forward = Forward(
    named: NodeId, key: SessionKey, dst: NodeId, to: Ref, addr: Address, payload: nat, checked: int, granted: int)

  /** What the controller answered, and the time recorded with it. */
  datatype Answer = Answer(src: NodeId, dst: NodeId, ok: bool, at: int)

  /** handed: the node each session key was sent to, sealed for it alone. */
  datatype State = State(
    store: Store, threads: map<nat, Thread>, handed: map<SessionKey, NodeId>,
    answers: set<Answer>, log: seq<Forward>, arrivals: map<Ref, seq<Tick>>, clock: int)

  const START := State(Store(map[], Tables(map[], map[]), map[]), map[], map[], {}, [], map[], 0)

  /** read: what the clock said when the call read it, before it had the lock. */
  datatype Step =
    | Hello(node: NodeId, id: SessionId, num: nat, key: SessionKey, from: Address)
    | Lookup(t: nat, frame: Frame, from: Address, read: int)
    | Touch(t: nat)
    | PermLookup(t: nat, read: int)
    | CanSend(t: nat, ok: bool)
    | PermRecord(t: nat)
    | Route(t: nat)
    | Expire(read: int)
    | ExpirePerms(read: int)

  /** now is the clock at the step; it never goes back. IDs and keys are fresh. */
  predicate Legal(s: State, step: Step, now: int)
  {
    now >= s.clock
    && match step
       case Hello(node, id, num, key, _) =>
         id !in s.store.tables.byID && key !in s.handed && (forall r :: r in s.store.heap ==> r.num != num)
       case Lookup(t, _, _, read) => t !in s.threads && 0 <= read <= now
       case Touch(t) => t in s.threads && s.threads[t].Opened?
       case PermLookup(t, read) => t in s.threads && s.threads[t].Checking? && 0 <= read <= now
       case CanSend(t, _) => t in s.threads && s.threads[t].Asking?
       case PermRecord(t) => t in s.threads && s.threads[t].Answered?
       case Route(t) => t in s.threads && s.threads[t].Permitted?
       case Expire(read) => 0 <= read <= now
       case ExpirePerms(read) => 0 <= read <= now
  }

  /** The frame is counted; the call goes on if the session does not flood and its
      key opens the frame. */
  function AfterLookup(s: State, t: nat, f: Frame, from: Address, read: int, now: int): State
  {
    if !Has(s.store, f.id) then s
    else
      var r := s.store.tables.byID[f.id];
      var u := s.(store := Counted(s.store, f.id, read), arrivals := s.arrivals[r := Seen(s, r) + [Tick(read, now)]]);
      if Found(s.store, f.id, read) == Some(r) && f.key == r.key
      then u.(threads := s.threads[t := Opened(r, from, read, f.inner, f.key)]) else u
  }

  function AfterTouch(s: State, t: nat): State
    requires t in s.threads && s.threads[t].Opened?
  {
    var th := s.threads[t];
    s.(store := Touched(s.store, th.ref, th.from, th.at),
       threads := if th.inner.Send?
                  then s.threads[t := Checking(th.ref.card.node, th.inner.dst, th.inner.payload, th.key)]
                  else s.threads - {t})
  }

  function AfterPermLookup(s: State, t: nat, read: int): State
    requires t in s.threads && s.threads[t].Checking?
  {
    var th := s.threads[t];
    match Cached(s.store.perm, th.src, th.dst, read)
    case Yes =>
      var at := s.store.perm[(th.src, th.dst)].at;
      s.(threads := s.threads[t := Permitted(th.src, th.dst, th.payload, th.key, read, at)])
    case No => s.(threads := s.threads - {t})
    case Unkreadn => s.(threads := s.threads[t := Asking(th.src, th.dst, th.payload, th.key, read)])
  }

  function AfterPermRecord(s: State, t: nat): State
    requires t in s.threads && s.threads[t].Answered?
  {
    var th := s.threads[t];
    s.(store := Recorded(s.store, th.src, th.dst, th.ok, th.checked),
       threads := if th.ok then s.threads[t := Permitted(th.src, th.dst, th.payload, th.key, th.checked, th.checked)]
                  else s.threads - {t})
  }

  function AfterRoute(s: State, t: nat): State
    requires t in s.threads && s.threads[t].Permitted?
  {
    var th, u, to := s.threads[t], s.(threads := s.threads - {t}), Destination(s.store, s.threads[t].dst);
    if to.None? then u
    else
      var addr := s.store.heap[to.value].addr;
      u.(log := s.log + [Forward(th.src, th.key, th.dst, to.value, addr, th.payload, th.checked, th.granted)])
  }

  function Next(s: State, step: Step, now: int): State
    requires Legal(s, step, now)
  {
    var u :=
      match step
      case Hello(node, id, num, key, from) =>
        s.(store := Welcomed(s.store, Ref(num, Card(id, node), key), from, now), handed := s.handed[key := node])
      case Lookup(t, f, from, read) => AfterLookup(s, t, f, from, read, now)
      case Touch(t) => AfterTouch(s, t)
      case PermLookup(t, read) => AfterPermLookup(s, t, read)
      case CanSend(t, ok) =>
        var th := s.threads[t];
        s.(threads := s.threads[t := Answered(th.src, th.dst, th.payload, th.key, th.checked, ok)],
           answers := s.answers + {Answer(th.src, th.dst, ok, th.checked)})
      case PermRecord(t) => AfterPermRecord(s, t)
      case Route(t) => AfterRoute(s, t)
      case Expire(read) => s.(store := Expired(s.store, read))
      case ExpirePerms(read) => s.(store := PermsExpired(s.store, read));
    u.(clock := now)
  }

  ghost predicate Runs(s: State, steps: seq<(Step, int)>, end: State)
    decreases steps
  {
    if steps == [] then end == s
    else Legal(s, steps[0].0, steps[0].1) && Runs(Next(s, steps[0].0, steps[0].1), steps[1..], end)
  }

  // ---- invariants ----

  /** A positive answer was recorded at time granted, less than a minute before
      the check at time checked. */
  predicate Granted(s: State, src: NodeId, dst: NodeId, checked: int, granted: int)
  {
    Answer(src, dst, true, granted) in s.answers && checked - granted < MINUTE
  }

  /** The node is the one, and the only one, that was given the key. */
  predicate Held(s: State, key: SessionKey, node: NodeId)
  {
    key in s.handed && s.handed[key] == node
  }

  predicate ThreadOk(s: State, th: Thread)
  {
    match th
    case Opened(r, _, _, _, key) => Held(s, key, r.card.node)
    case Checking(src, _, _, key) => Held(s, key, src)
    case Asking(src, _, _, key, _) => Held(s, key, src)
    case Answered(src, dst, _, key, checked, ok) => Held(s, key, src) && Answer(src, dst, ok, checked) in s.answers
    case Permitted(src, dst, _, key, checked, granted) => Held(s, key, src) && Granted(s, src, dst, checked, granted)
  }

  /** The frame names the node that was given the key it came in under, is sealed
      with a key given to the node it is for, and rests on a recent yes of the
      controller. */
  predicate ForwardOk(s: State, f: Forward)
  {
    Held(s, f.key, f.named) && f.to.card.node == f.dst && Held(s, f.to.key, f.dst)
    && Granted(s, f.named, f.dst, f.checked, f.granted)
  }

  /** Every session's key was given to the session's node. */
  predicate KeysHeld(s: State)
  {
    forall r :: r in s.store.heap ==> Held(s, r.key, r.card.node)
  }

  function Seen(s: State, r: Ref): seq<Tick>
  {
    if r in s.arrivals then s.arrivals[r] else []
  }

  /** Counted in order until now, by readings that are not from the future. */
  predicate Ordered(ks: seq<Tick>, clock: int)
  {
    (forall i :: 0 <= i < |ks| ==> 0 <= ks[i].read <= ks[i].at <= clock)
    && forall i, j :: 0 <= i < j < |ks| ==> ks[i].at <= ks[j].at
  }

  /** The limiter of a session has seen exactly the frames looked up for it. */
  predicate Metered(s: State, r: Ref)
    requires r in s.store.heap
  {
    s.store.heap[r].window == After(UNUSED, Reads(Seen(s, r))) && Ordered(Seen(s, r), s.clock)
  }

  predicate AllMetered(s: State)
  {
    s.clock >= 0 && s.arrivals.Keys <= s.store.heap.Keys && forall r :: r in s.store.heap ==> Metered(s, r)
  }

  predicate Inv(s: State)
  {
    Mutual(s.store.tables, CARD) && AllMetered(s) && KeysHeld(s)
    && (forall id :: id in s.store.tables.byID ==> s.store.tables.byID[id] in s.store.heap)
    && (forall k :: k in s.store.perm ==> Answer(k.0, k.1, s.store.perm[k].ok, s.store.perm[k].at) in s.answers)
    && (forall t :: t in s.threads ==> ThreadOk(s, s.threads[t]))
    && (forall i :: 0 <= i < |s.log| ==> ForwardOk(s, s.log[i]))
  }

  lemma TablesStay(s: State, step: Step, now: int)
    requires Legal(s, step, now) && !step.Hello? && !step.Expire?
    ensures var u := Next(s, step, now); u.store.tables == s.store.tables && s.store.heap.Keys <= u.store.heap.Keys
  {
  }

  lemma TablesStep(s: State, step: Step, now: int)
    requires Inv(s) && Legal(s, step, now)
    ensures var u := Next(s, step, now);
            Mutual(u.store.tables, CARD) && forall id :: id in u.store.tables.byID ==> u.store.tables.byID[id] in u.store.heap
  {
    if step.Hello? {
      InstallKeeps(s.store.tables, CARD, Ref(step.num, Card(step.id, step.node), step.key));
    } else if step.Expire? {
      WithoutKeeps(s.store.tables, Idle(s.store, step.read));
    } else {
      TablesStay(s, step, now);
    }
  }

  lemma WithoutKeeps(t: Tables<Ref>, idle: set<SessionId>)
    requires Mutual(t, CARD)
    ensures Mutual(Without(t, idle), CARD)
  {
  }

  lemma PermsStay(s: State, step: Step, now: int)
    requires Legal(s, step, now) && !step.PermRecord?
    ensures var u := Next(s, step, now);
            s.answers <= u.answers && forall k :: k in u.store.perm ==> k in s.store.perm && u.store.perm[k] == s.store.perm[k]
  {
  }

  lemma PermsStep(s: State, step: Step, now: int)
    requires Legal(s, step, now)
    requires forall k :: k in s.store.perm ==> Answer(k.0, k.1, s.store.perm[k].ok, s.store.perm[k].at) in s.answers
    requires forall t :: t in s.threads ==> ThreadOk(s, s.threads[t])
    ensures var u := Next(s, step, now);
            && s.answers <= u.answers
            && forall k :: k in u.store.perm ==> Answer(k.0, k.1, u.store.perm[k].ok, u.store.perm[k].at) in u.answers
  {
    if step.PermRecord? {
      assert ThreadOk(s, s.threads[step.t]);
    } else {
      PermsStay(s, step, now);
    }
  }

  predicate HasThread(step: Step)
  {
    step.Lookup? || step.Touch? || step.PermLookup? || step.CanSend? || step.PermRecord? || step.Route?
  }

  /** A step is about one call; the others stay where they are. */
  lemma OthersWait(s: State, step: Step, now: int)
    requires Legal(s, step, now)
    ensures var u := Next(s, step, now);
            forall t :: t in u.threads && (!HasThread(step) || t != step.t) ==> t in s.threads && u.threads[t] == s.threads[t]
  {
  }

  /** Keys stay with whom they were given to. */
  lemma KeysStep(s: State, step: Step, now: int)
    requires KeysHeld(s) && Legal(s, step, now)
    ensures KeysHeld(Next(s, step, now))
    ensures forall key :: key in s.handed ==> key in Next(s, step, now).handed && Next(s, step, now).handed[key] == s.handed[key]
  {
    match step
    case Lookup(_, _, _, _) =>
    case Touch(_) =>
    case _ =>
  }

  lemma OwnThread(s: State, step: Step, now: int)
    requires Inv(s) && Legal(s, step, now) && HasThread(step)
    ensures var u := Next(s, step, now); step.t in u.threads ==> ThreadOk(u, u.threads[step.t])
  {
    if step.Lookup? {
      OpenedThread(s, step, now);
    } else if step.PermLookup? {
      CheckedThread(s, step, now);
    } else {
      assert ThreadOk(s, s.threads[step.t]);
      match step
      case Touch(_) =>
      case _ =>
    }
  }

  lemma OpenedThread(s: State, step: Step, now: int)
    requires KeysHeld(s) && Legal(s, step, now) && step.Lookup?
    ensures var u := Next(s, step, now); step.t in u.threads ==> ThreadOk(u, u.threads[step.t])
  {
  }

  lemma CheckedThread(s: State, step: Step, now: int)
    requires Legal(s, step, now) && step.PermLookup? && ThreadOk(s, s.threads[step.t])
    requires forall k :: k in s.store.perm ==> Answer(k.0, k.1, s.store.perm[k].ok, s.store.perm[k].at) in s.answers
    ensures var u := Next(s, step, now); step.t in u.threads ==> ThreadOk(u, u.threads[step.t])
  {
    var th := s.threads[step.t];
    if Cached(s.store.perm, th.src, th.dst, step.read) == Yes {
      assert (th.src, th.dst) in s.store.perm;
    }
  }

  /** Answers and keys are only added. */
  predicate Known(s: State, u: State)
  {
    s.answers <= u.answers && forall key :: key in s.handed ==> key in u.handed && u.handed[key] == s.handed[key]
  }

  lemma ThreadStays(s: State, u: State, th: Thread)
    requires Known(s, u) && ThreadOk(s, th)
    ensures ThreadOk(u, th)
  {
  }

  lemma ForwardStays(s: State, u: State, f: Forward)
    requires Known(s, u) && ForwardOk(s, f)
    ensures ForwardOk(u, f)
  {
  }

  lemma ThreadsStep(s: State, step: Step, now: int)
    requires Inv(s) && Legal(s, step, now) && Known(s, Next(s, step, now))
    ensures var u := Next(s, step, now); forall t :: t in u.threads ==> ThreadOk(u, u.threads[t])
  {
    var u := Next(s, step, now);
    OthersWait(s, step, now);
    forall t | t in u.threads
      ensures ThreadOk(u, u.threads[t])
    {
      if HasThread(step) && t == step.t {
        OwnThread(s, step, now);
      } else {
        ThreadStays(s, u, s.threads[t]);
      }
    }
  }

  lemma LogOnlyInRoute(s: State, step: Step, now: int)
    requires Legal(s, step, now)
    ensures !step.Route? ==> Next(s, step, now).log == s.log
    ensures step.Route? ==> Next(s, step, now).log == AfterRoute(s, step.t).log
  {
    match step
    case Lookup(_, _, _, _) =>
    case PermLookup(_, _) =>
    case _ =>
  }

  lemma RouteLogs(s: State, t: nat)
    requires Mutual(s.store.tables, CARD) && KeysHeld(s) && t in s.threads && s.threads[t].Permitted? && ThreadOk(s, s.threads[t])
    requires forall i :: 0 <= i < |s.log| ==> ForwardOk(s, s.log[i])
    ensures var log := AfterRoute(s, t).log;
            s.log <= log && forall i :: 0 <= i < |log| ==> ForwardOk(s, log[i])
  {
  }

  lemma LogStep(s: State, step: Step, now: int)
    requires Inv(s) && Legal(s, step, now) && Known(s, Next(s, step, now))
    ensures var u := Next(s, step, now);
            s.log <= u.log && forall i :: 0 <= i < |u.log| ==> ForwardOk(u, u.log[i])
  {
    LogOnlyInRoute(s, step, now);
    if step.Route? {
      RouteLogs(s, step.t);
    }
    var u := Next(s, step, now);
    forall i | 0 <= i < |u.log|
      ensures ForwardOk(u, u.log[i])
    {
      assert ForwardOk(s, u.log[i]);
      ForwardStays(s, u, u.log[i]);
    }
  }

  lemma MeterOne(w: Window, ks: seq<Tick>, clock: int, k: Tick)
    requires w == After(UNUSED, Reads(ks)) && Ordered(ks, clock) && 0 <= k.read <= k.at && clock <= k.at
    ensures Count(w, k.read) == After(UNUSED, Reads(ks + [k])) && Ordered(ks + [k], k.at)
  {
    assert Reads(ks + [k])[..|ks|] == Reads(ks);
  }

  /** What a lookup does to the limiter of one session. */
  lemma LookupCounts(s: State, step: Step, now: int, r: Ref)
    requires step.Lookup? && r in s.store.heap
    ensures var u := AfterLookup(s, step.t, step.frame, step.from, step.read, now);
      var hit := Has(s.store, step.frame.id) && s.store.tables.byID[step.frame.id] == r;
      r in u.store.heap
      && u.store.heap[r].window == (if hit then Count(s.store.heap[r].window, step.read) else s.store.heap[r].window)
      && Seen(u, r) == (if hit then Seen(s, r) + [Tick(step.read, now)] else Seen(s, r))
  {
  }

  lemma MeterLookup(s: State, step: Step, now: int, r: Ref)
    requires step.Lookup? && Legal(s, step, now) && r in s.store.heap && Metered(s, r)
    ensures r in Next(s, step, now).store.heap && Metered(Next(s, step, now), r)
  {
    LookupCounts(s, step, now, r);
    MeterOne(s.store.heap[r].window, Seen(s, r), s.clock, Tick(step.read, now));
    OrderedLater(Seen(s, r), s.clock, now);
    var u := AfterLookup(s, step.t, step.frame, step.from, step.read, now);
    assert Seen(u.(clock := now), r) == Seen(u, r);
  }

  lemma OrderedLater(ks: seq<Tick>, clock: int, now: int)
    requires Ordered(ks, clock) && clock <= now
    ensures Ordered(ks, now)
  {
  }

  /** Other sections leave the limiters alone. */
  lemma MetersOnlyInLookup(s: State, step: Step, now: int, r: Ref)
    requires Legal(s, step, now) && !step.Lookup? && r in s.store.heap
    ensures var u := Next(s, step, now);
            r in u.store.heap && u.store.heap[r].window == s.store.heap[r].window && u.arrivals == s.arrivals
  {
    match step
    case Touch(t) =>
    case Hello(_, _, _, _, _) =>
    case _ =>
  }

  lemma NewRef(s: State, step: Step, now: int, r: Ref)
    requires Legal(s, step, now) && r !in s.store.heap && r in Next(s, step, now).store.heap && r !in s.arrivals
    ensures var u := Next(s, step, now); u.store.heap[r].window == UNUSED && r !in u.arrivals
  {
    match step
    case Hello(_, _, _, _, _) =>
    case _ =>
  }

  lemma MeterRef(s: State, step: Step, now: int, r: Ref)
    requires AllMetered(s) && Legal(s, step, now) && r in Next(s, step, now).store.heap
    ensures Metered(Next(s, step, now), r)
  {
    if r !in s.store.heap {
      NewRef(s, step, now, r);
    } else if step.Lookup? {
      MeterLookup(s, step, now, r);
    } else {
      MetersOnlyInLookup(s, step, now, r);
      OrderedLater(Seen(s, r), s.clock, now);
    }
  }

  lemma ArrivalKeys(s: State, step: Step, now: int)
    requires Legal(s, step, now) && s.arrivals.Keys <= s.store.heap.Keys
    ensures Next(s, step, now).arrivals.Keys <= Next(s, step, now).store.heap.Keys
  {
    HeapGrows(s, step, now);
    if step.Lookup? {
      var u := AfterLookup(s, step.t, step.frame, step.from, step.read, now);
      assert u.arrivals.Keys <= u.store.heap.Keys;
    } else {
      ArrivalsOnlyInLookup(s, step, now);
    }
  }

  lemma ArrivalsOnlyInLookup(s: State, step: Step, now: int)
    requires Legal(s, step, now) && !step.Lookup?
    ensures Next(s, step, now).arrivals == s.arrivals
  {
    match step
    case PermLookup(_, _) =>
    case _ =>
  }

  lemma HeapGrows(s: State, step: Step, now: int)
    requires Legal(s, step, now)
    ensures s.store.heap.Keys <= Next(s, step, now).store.heap.Keys
  {
    if !step.Hello? && !step.Expire? {
      TablesStay(s, step, now);
    }
  }

  lemma MeterStep(s: State, step: Step, now: int)
    requires AllMetered(s) && Legal(s, step, now)
    ensures AllMetered(Next(s, step, now))
  {
    ArrivalKeys(s, step, now);
    forall r | r in Next(s, step, now).store.heap
      ensures Metered(Next(s, step, now), r)
    {
      MeterRef(s, step, now, r);
    }
  }

  /** Under every interleaving the tables stay mutually inverse, and every
      frame sent on names its own sender and rests on a recent yes. */
  lemma {:induction false} AlwaysSound(s: State, steps: seq<(Step, int)>, end: State)
    requires Inv(s) && Runs(s, steps, end)
    ensures Inv(end) && s.log <= end.log
    decreases steps
  {
    if steps != [] {
      var step, now := steps[0].0, steps[0].1;
      TablesStep(s, step, now);
      PermsStep(s, step, now);
      KeysStep(s, step, now);
      ThreadsStep(s, step, now);
      LogStep(s, step, now);
      MeterStep(s, step, now);
      AlwaysSound(Next(s, step, now), steps[1..], end);
    }
  }

  lemma Reachable(steps: seq<(Step, int)>, end: State)
    requires Runs(START, steps, end)
    ensures Mutual(end.store.tables, CARD)
    ensures forall i :: 0 <= i < |end.log| ==> ForwardOk(end, end.log[i])
  {
    AlwaysSound(START, steps, end);
  }

  /** No call waits longer than lag between reading the clock and counting its
      frame. */
  predicate Prompt(steps: seq<(Step, int)>, lag: nat)
  {
    forall i :: 0 <= i < |steps| ==> steps[i].0.Lookup? ==> steps[i].1 - steps[i].0.read <= lag
  }

  predicate AllPrompt(s: State, lag: nat)
  {
    forall r :: r in s.arrivals ==> forall i :: 0 <= i < |s.arrivals[r]| ==> s.arrivals[r][i].at - s.arrivals[r][i].read <= lag
  }

  lemma PromptStep(s: State, step: Step, now: int, lag: nat)
    requires AllPrompt(s, lag) && Legal(s, step, now) && (step.Lookup? ==> now - step.read <= lag)
    ensures AllPrompt(Next(s, step, now), lag)
  {
    if !step.Lookup? {
      ArrivalsOnlyInLookup(s, step, now);
    }
  }

  lemma {:induction false} AlwaysPrompt(s: State, steps: seq<(Step, int)>, end: State, lag: nat)
    requires AllPrompt(s, lag) && Runs(s, steps, end) && Prompt(steps, lag)
    ensures AllPrompt(end, lag)
    decreases steps
  {
    if steps != [] {
      assert steps[0].0.Lookup? ==> steps[0].1 - steps[0].0.read <= lag;
      PromptStep(s, steps[0].0, steps[0].1, lag);
      forall i | 0 <= i < |steps[1..]| ensures steps[1..][i].0.Lookup? ==> steps[1..][i].1 - steps[1..][i].0.read <= lag {
        assert steps[1..][i] == steps[i + 1];
      }
      AlwaysPrompt(Next(s, steps[0].0, steps[0].1), steps[1..], end, lag);
    }
  }

  /** In any second a session gets less than two limits through, and one more for
      each second, or part of one, that a call may wait for the lock. */
  lemma SessionIsLimited(steps: seq<(Step, int)>, end: State, r: Ref, from: int, lag: nat)
    requires Runs(START, steps, end) && Prompt(steps, lag) && r in end.arrivals
    ensures CountedWithin(UNUSED, end.arrivals[r], MAX_PPS, from) < (2 + (lag + SECOND - 1) / SECOND) * MAX_PPS
  {
    AlwaysSound(START, steps, end);
    AlwaysPrompt(START, steps, end, lag);
    var ks := end.arrivals[r];
    assert Metered(end, r) && Seen(end, r) == ks;
    LateLimit(UNUSED, ks, MAX_PPS, from, lag);
  }

  /** Expiry never takes a session that was heard of in the last two minutes. */
  lemma ActiveSurvives(s: State, read: int, now: int, id: SessionId)
    requires Inv(s) && Legal(s, Expire(read), now) && id in s.store.tables.byID
    requires read - s.store.heap[s.store.tables.byID[id]].last <= SESSION_IDLE
    ensures var t, r := Next(s, Expire(read), now).store.tables, s.store.tables.byID[id];
            id in t.byID && t.byID[id] == r && r.card.node in t.byNode && t.byNode[r.card.node] == r
  {
    assert s.store.tables.byID[id].card.id == id;
  }
}
