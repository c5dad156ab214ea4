/** internal/node/disco.go: when a newly confirmed path replaces the current one. */
module DiscoPaths {
  import Common

  const STALE := 60 * Common.SECOND

  type Addr = nat

  /** Which addresses lead through the relay, and which are in a local network. */
  datatype Net = Net(relay: Addr -> bool, lan: Addr -> bool)

  /** None is the zero path, whose address is not valid. */
  datatype Path = None | Path(addr: Addr, rtt: int, at: int)

  predicate Live(cur: Path, now: int)
  {
    cur.Path? && now - cur.at < STALE
  }

  predicate Better(net: Net, p: Path, cur: Path, now: int)
    requires p.Path?
  {
    if !Live(cur, now) then true
    else if p.addr == cur.addr then false
    else if net.relay(p.addr) != net.relay(cur.addr) then net.relay(cur.addr)
    else if net.lan(p.addr) != net.lan(cur.addr) then net.lan(p.addr)
    else p.rtt * 10 < cur.rtt * 7
  }

  /** The best path after a pong from addr. */
  function AfterPong(net: Net, cur: Path, addr: Addr, rtt: int, now: int): Path
  {
    var p := Path(addr, rtt, now);
    if Better(net, p, cur, now) then p
    else if p.addr == cur.addr then cur.(at := now, rtt := rtt)
    else cur
  }

  // ---- runs of pongs, with one round-trip time for each address ----

  datatype Pong = Pong(from: Addr, at: int)

  function Current(net: Net, rtt: Addr -> nat, ps: seq<Pong>): (cur: Path)
    ensures cur.Path? <==> ps != []
    ensures cur.Path? ==> cur.rtt == rtt(cur.addr)
  {
    if ps == [] then None
    else
      var p := ps[|ps| - 1];
      AfterPong(net, Current(net, rtt, ps[..|ps| - 1]), p.from, rtt(p.from), p.at)
  }

  /** Every pong comes while the path before it is still live. */
  predicate NeverStale(net: Net, rtt: Addr -> nat, ps: seq<Pong>)
  {
    forall i {:trigger ps[i]} :: 1 <= i < |ps| ==> Live(Current(net, rtt, ps[..i]), ps[i].at)
  }

  /** The relay, then direct paths, then those of a local network. */
  function Class(net: Net, a: Addr): nat
  {
    (if net.relay(a) then 0 else 2) + if net.lan(a) then 1 else 0
  }

  /** A better class, or the same one and at least 30% faster. */
  predicate Improves(net: Net, rtt: Addr -> nat, a: Addr, b: Addr)
  {
    Class(net, a) > Class(net, b) || (Class(net, a) == Class(net, b) && rtt(a) * 10 < rtt(b) * 7)
  }

  lemma ImprovesIsAnOrder(net: Net, rtt: Addr -> nat, a: Addr, b: Addr, c: Addr)
    ensures !Improves(net, rtt, a, a)
    ensures Improves(net, rtt, a, b) && Improves(net, rtt, b, c) ==> Improves(net, rtt, a, c)
  {
  }

  /** The address in use after the first i pongs. */
  function InUse(net: Net, rtt: Addr -> nat, ps: seq<Pong>, i: nat): Addr
    requires 1 <= i <= |ps|
  {
    Current(net, rtt, ps[..i]).addr
  }

  /** One more pong: the path changes to its address if that improves, and stays
      if it does not. */
  lemma OnePong(net: Net, rtt: Addr -> nat, ps: seq<Pong>, i: nat)
    requires NeverStale(net, rtt, ps) && 1 <= i < |ps|
    ensures InUse(net, rtt, ps, i + 1)
         == if Improves(net, rtt, ps[i].from, InUse(net, rtt, ps, i)) then ps[i].from else InUse(net, rtt, ps, i)
  {
    assert ps[..i + 1][..i] == ps[..i];
  }

  lemma {:induction false} Climbs(net: Net, rtt: Addr -> nat, ps: seq<Pong>, i: nat, j: nat)
    requires NeverStale(net, rtt, ps) && 1 <= i <= j <= |ps|
    ensures var a, b := InUse(net, rtt, ps, i), InUse(net, rtt, ps, j); a == b || Improves(net, rtt, b, a)
  {
    if i < j {
      Climbs(net, rtt, ps, i, j - 1);
      OnePong(net, rtt, ps, j - 1);
      ImprovesIsAnOrder(net, rtt, InUse(net, rtt, ps, j), InUse(net, rtt, ps, j - 1), InUse(net, rtt, ps, i));
    }
  }

  /** An abandoned address is never used again. */
  lemma NeverReturns(net: Net, rtt: Addr -> nat, ps: seq<Pong>, i: nat, j: nat, k: nat)
    requires NeverStale(net, rtt, ps) && 1 <= i <= j <= k <= |ps|
    requires InUse(net, rtt, ps, i) != InUse(net, rtt, ps, j)
    ensures InUse(net, rtt, ps, k) != InUse(net, rtt, ps, i)
  {
    var a, b, c := InUse(net, rtt, ps, i), InUse(net, rtt, ps, j), InUse(net, rtt, ps, k);
    Climbs(net, rtt, ps, i, j);
    Climbs(net, rtt, ps, j, k);
    ImprovesIsAnOrder(net, rtt, c, b, a);
    ImprovesIsAnOrder(net, rtt, a, a, a);
  }

  /** How often the address in use changes over the first n pongs. */
  function Switches(net: Net, rtt: Addr -> nat, ps: seq<Pong>, n: nat): nat
    requires n <= |ps|
  {
    if n <= 1 then 0
    else
      Switches(net, rtt, ps, n - 1)
      + if InUse(net, rtt, ps, n) != InUse(net, rtt, ps, n - 1) then 1 else 0
  }

  function Answered(ps: seq<Pong>): set<Addr>
  {
    set p | p in ps :: p.from
  }

  /** The addresses in use at any time during the first n pongs. */
  function Used(net: Net, rtt: Addr -> nat, ps: seq<Pong>, n: nat): set<Addr>
    requires n <= |ps|
  {
    if n == 0 then {} else Used(net, rtt, ps, n - 1) + {InUse(net, rtt, ps, n)}
  }

  lemma {:induction false} UsedBefore(net: Net, rtt: Addr -> nat, ps: seq<Pong>, n: nat, a: Addr)
    requires n <= |ps|
    ensures a in Used(net, rtt, ps, n) <==> exists i :: 1 <= i <= n && InUse(net, rtt, ps, i) == a
  {
    if n > 0 {
      UsedBefore(net, rtt, ps, n - 1, a);
    }
  }

  /** A switch is to an address that was never in use before. */
  lemma SwitchIsNew(net: Net, rtt: Addr -> nat, ps: seq<Pong>, n: nat)
    requires NeverStale(net, rtt, ps) && 1 < n <= |ps|
    ensures InUse(net, rtt, ps, n) in Used(net, rtt, ps, n - 1)
       <==> InUse(net, rtt, ps, n) == InUse(net, rtt, ps, n - 1)
  {
    var a := InUse(net, rtt, ps, n);
    UsedBefore(net, rtt, ps, n - 1, a);
    if i :| 1 <= i <= n - 1 && InUse(net, rtt, ps, i) == a {
      if a != InUse(net, rtt, ps, n - 1) {
        NeverReturns(net, rtt, ps, i, n - 1, n);
      }
    }
  }

  lemma {:induction false} SwitchesCount(net: Net, rtt: Addr -> nat, ps: seq<Pong>, n: nat)
    requires NeverStale(net, rtt, ps) && 1 <= n <= |ps|
    ensures |Used(net, rtt, ps, n)| == Switches(net, rtt, ps, n) + 1
  {
    if n == 1 {
      assert Used(net, rtt, ps, 0) == {};
    } else {
      SwitchesCount(net, rtt, ps, n - 1);
      SwitchIsNew(net, rtt, ps, n);
    }
  }

  lemma {:induction false} UsedAnswered(net: Net, rtt: Addr -> nat, ps: seq<Pong>, n: nat)
    requires NeverStale(net, rtt, ps) && n <= |ps|
    ensures Used(net, rtt, ps, n) <= Answered(ps)
  {
    if n == 1 {
      assert ps[..1][..0] == [] && ps[0] in ps;
    } else if n > 1 {
      UsedAnswered(net, rtt, ps, n - 1);
      OnePong(net, rtt, ps, n - 1);
      UsedBefore(net, rtt, ps, n - 1, InUse(net, rtt, ps, n - 1));
      assert ps[n - 1] in ps;
    }
  }

  /** There are fewer switches than addresses. */
  lemma FewSwitches(net: Net, rtt: Addr -> nat, ps: seq<Pong>)
    requires NeverStale(net, rtt, ps) && ps != []
    ensures Switches(net, rtt, ps, |ps|) < |Answered(ps)|
  {
    SwitchesCount(net, rtt, ps, |ps|);
    UsedAnswered(net, rtt, ps, |ps|);
    Common.Subset(Used(net, rtt, ps, |ps|), Answered(ps));
  }

  /** Once the address in use has stayed the same since the m-th pong, no
      address that answered after it has a better class, and none of the same
      class is over 30% faster. */
  lemma Settled(net: Net, rtt: Addr -> nat, ps: seq<Pong>, m: nat, j: nat)
    requires NeverStale(net, rtt, ps) && 1 <= m <= j < |ps|
    requires InUse(net, rtt, ps, m) == InUse(net, rtt, ps, |ps|)
    ensures var a, cur := ps[j].from, InUse(net, rtt, ps, |ps|);
      Class(net, a) <= Class(net, cur) && (Class(net, a) == Class(net, cur) ==> rtt(a) * 10 >= rtt(cur) * 7)
  {
    var cur := InUse(net, rtt, ps, |ps|);
    if InUse(net, rtt, ps, j) != cur {
      NeverReturns(net, rtt, ps, m, j, |ps|);
    } else if InUse(net, rtt, ps, j + 1) != cur {
      NeverReturns(net, rtt, ps, m, j + 1, |ps|);
    }
    OnePong(net, rtt, ps, j);
  }
}
