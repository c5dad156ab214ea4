/** The fixed-window limiter that both the broadcast wrapper and a relay
    session use: at most limit packets in a window, and a new window starts with
    the first packet a second or more after the last one began. */
module RateLimit {
  import opened Common

  datatype Window = Window(start: int, count: nat)

  function Count(w: Window, now: int): Window
  {
    if now - w.start >= SECOND then Window(now, 1) else Window(w.start, w.count + 1)
  }

  predicate Admits(w: Window, now: int, limit: nat)
  {
    Count(w, now).count <= limit
  }

  predicate NonDecreasing(ts: seq<int>)
  {
    forall i, j :: 0 <= i < j < |ts| ==> ts[i] <= ts[j]
  }

  function After(w: Window, ts: seq<int>): Window
  {
    if ts == [] then w else Count(After(w, ts[..|ts| - 1]), ts[|ts| - 1])
  }

  /** A limiter that has seen nothing: the zero time is long past. */
  predicate Unused(w: Window, ts: seq<int>)
  {
    w.count == 0 && (ts != [] ==> ts[0] - w.start >= SECOND)
  }

  function Min(a: nat, b: nat): nat
  {
    if a < b then a else b
  }

  // ---- readings of the clock that come late ----

  /** A packet that is counted at one time by an earlier reading of the clock. */
  datatype Tick = Tick(read: int, at: int)

  function Reads(ks: seq<Tick>): seq<int>
  {
    seq(|ks|, i requires 0 <= i < |ks| => ks[i].read)
  }

  /** Counted in order, by readings no more than lag old. */
  predicate Timely(ks: seq<Tick>, lag: nat)
  {
    (forall i :: 0 <= i < |ks| ==> ks[i].at - lag <= ks[i].read <= ks[i].at)
    && forall i, j :: 0 <= i < j < |ks| ==> ks[i].at <= ks[j].at
  }

  /** How many of the packets counted within [from, from+1s) are admitted. */
  function CountedWithin(w: Window, ks: seq<Tick>, limit: nat, from: int): nat
  {
    if ks == [] then 0
    else
      var init, k := ks[..|ks| - 1], ks[|ks| - 1];
      CountedWithin(w, init, limit, from)
      + if from <= k.at < from + SECOND && Admits(After(w, Reads(init)), k.read, limit) then 1 else 0
  }

  /** How many windows can begin in a second when readings are late. */
  function Beginnings(lag: nat): nat
  {
    (lag + SECOND - 1) / SECOND + 1
  }

  /** The windows that may have begun after from - lag and before this one. */
  function Earlier(start: int, from: int, lag: nat): int
  {
    (start - (from - lag)) / SECOND
  }

  /** What the window v says of the n packets admitted so far. */
  predicate Within(v: Window, n: nat, limit: nat, from: int, lag: nat)
  {
    v.count > 0 && n < limit + Beginnings(lag) * limit
    && (v.start < from - lag ==> n < Min(v.count, limit))
    && (from - lag <= v.start < from + SECOND ==> n < limit + Earlier(v.start, from, lag) * limit + Min(v.count, limit))
  }

  lemma EarlierGrows(start: int, next: int, from: int, lag: nat, limit: nat)
    requires from - lag <= start && start + SECOND <= next < from + SECOND
    ensures 0 <= Earlier(start, from, lag) < Earlier(next, from, lag) < Beginnings(lag)
    ensures Earlier(start, from, lag) * limit + limit <= Earlier(next, from, lag) * limit
  {
    EarlierIsNatural(next, from, lag, limit);
    var e, f := Earlier(start, from, lag), Earlier(next, from, lag);
    TimesGrows(e + 1, f, limit);
  }

  lemma EarlierIsNatural(start: int, from: int, lag: nat, limit: nat)
    requires from - lag <= start < from + SECOND
    ensures 0 <= Earlier(start, from, lag) < Beginnings(lag)
    ensures 0 <= Earlier(start, from, lag) * limit && Earlier(start, from, lag) * limit + limit <= Beginnings(lag) * limit
  {
    var e := Earlier(start, from, lag);
    TimesGrows(0, e, limit);
    TimesGrows(e + 1, Beginnings(lag), limit);
  }

  lemma TimesGrows(a: int, b: int, limit: nat)
    requires a <= b
    ensures a * limit <= b * limit && (a * limit) + limit == (a + 1) * limit
  {
  }

  /** One more packet in the window that is open. */
  lemma SameWindow(v: Window, n: nat, k: Tick, limit: nat, from: int, lag: nat)
    requires Within(v, n, limit, from, lag) && v.start <= k.at && k.read < v.start + SECOND
    ensures var one := if from <= k.at < from + SECOND && Admits(v, k.read, limit) then 1 else 0;
      Within(Count(v, k.read), n + one, limit, from, lag)
  {
    if from - lag <= v.start < from + SECOND {
      EarlierIsNatural(v.start, from, lag, limit);
    }
    TimesGrows(0, Beginnings(lag), limit);
  }

  /** One that begins a new window. */
  lemma NewWindow(v: Window, n: nat, k: Tick, limit: nat, from: int, lag: nat)
    requires limit > 0 && Within(v, n, limit, from, lag) && k.at - lag <= k.read <= k.at && v.start + SECOND <= k.read
    requires k.at < from ==> n == 0
    ensures var one := if from <= k.at < from + SECOND && Admits(v, k.read, limit) then 1 else 0;
      Within(Count(v, k.read), n + one, limit, from, lag)
  {
    var next := k.read;
    TimesGrows(0, Beginnings(lag), limit);
    if from - lag <= next < from + SECOND {
      EarlierIsNatural(next, from, lag, limit);
      if from - lag <= v.start {
        EarlierGrows(v.start, next, from, lag, limit);
      }
    }
  }

  lemma {:induction false} LateWindows(w: Window, ks: seq<Tick>, limit: nat, from: int, lag: nat)
    requires Timely(ks, lag) && Unused(w, Reads(ks)) && limit > 0 && ks != []
    ensures var v, n := After(w, Reads(ks)), CountedWithin(w, ks, limit, from);
      Within(v, n, limit, from, lag) && v.start <= ks[|ks| - 1].at && (ks[|ks| - 1].at < from ==> n == 0)
  {
    var init, k := ks[..|ks| - 1], ks[|ks| - 1];
    assert Reads(ks)[..|ks| - 1] == Reads(init);
    if init == [] {
      FirstWindow(k, limit, from, lag);
    } else {
      LateWindows(w, init, limit, from, lag);
      var v, n := After(w, Reads(init)), CountedWithin(w, init, limit, from);
      assert init[|init| - 1].at <= k.at;
      if k.read - v.start >= SECOND {
        NewWindow(v, n, k, limit, from, lag);
      } else {
        SameWindow(v, n, k, limit, from, lag);
      }
    }
  }

  lemma FirstWindow(k: Tick, limit: nat, from: int, lag: nat)
    requires limit > 0 && k.at - lag <= k.read <= k.at
    ensures Within(Window(k.read, 1), if from <= k.at < from + SECOND then 1 else 0, limit, from, lag)
  {
    TimesGrows(1, Beginnings(lag), limit);
    if from - lag <= k.read < from + SECOND {
      EarlierIsNatural(k.read, from, lag, limit);
    }
  }

  /** Whatever the arrivals, and in whatever order the clock was read for them, a
      second admits less than two limits and one more for each second, or part of
      one, that readings are late. */
  lemma LateLimit(w: Window, ks: seq<Tick>, limit: nat, from: int, lag: nat)
    requires Timely(ks, lag) && Unused(w, Reads(ks))
    ensures var n := CountedWithin(w, ks, limit, from); n == 0 || n < (2 + (lag + SECOND - 1) / SECOND) * limit
  {
    if limit == 0 {
      NothingAdmitted(w, ks, from);
    } else if ks != [] {
      LateWindows(w, ks, limit, from, lag);
      TimesGrows(Beginnings(lag), Beginnings(lag), limit);
    }
  }

  lemma {:induction false} NothingAdmitted(w: Window, ks: seq<Tick>, from: int)
    ensures CountedWithin(w, ks, 0, from) == 0
  {
    if ks != [] {
      NothingAdmitted(w, ks[..|ks| - 1], from);
    }
  }

  function Repeated(k: Tick, n: nat): seq<Tick>
  {
    seq(n, i => k)
  }

  lemma OneTick(w: Window, ks: seq<Tick>, k: Tick, limit: nat, from: int)
    ensures After(w, Reads(ks + [k])) == Count(After(w, Reads(ks)), k.read)
    ensures CountedWithin(w, ks + [k], limit, from)
         == CountedWithin(w, ks, limit, from)
            + if from <= k.at < from + SECOND && Admits(After(w, Reads(ks)), k.read, limit) then 1 else 0
  {
    assert (ks + [k])[..|ks|] == ks && Reads(ks + [k])[..|ks|] == Reads(ks);
  }

  /** A burst of n packets into the window that is open then. */
  lemma {:induction false} Burst(w: Window, ks: seq<Tick>, k: Tick, n: nat, limit: nat, from: int)
    requires var v := After(w, Reads(ks)); v.start <= k.read < v.start + SECOND && v.count + n <= limit
    requires from <= k.at < from + SECOND
    ensures After(w, Reads(ks + Repeated(k, n))) == Window(After(w, Reads(ks)).start, After(w, Reads(ks)).count + n)
    ensures CountedWithin(w, ks + Repeated(k, n), limit, from) == CountedWithin(w, ks, limit, from) + n
  {
    if n == 0 {
      assert ks + Repeated(k, 0) == ks;
    } else {
      Burst(w, ks, k, n - 1, limit, from);
      assert ks + Repeated(k, n) == ks + Repeated(k, n - 1) + [k];
      OneTick(w, ks + Repeated(k, n - 1), k, limit, from);
    }
  }

  /** A burst that begins a window and fills it. */
  lemma FullWindow(w: Window, ks: seq<Tick>, k: Tick, limit: nat, from: int)
    requires limit > 0 && After(w, Reads(ks)).start + SECOND <= k.read && from <= k.at < from + SECOND
    ensures After(w, Reads(ks + Repeated(k, limit))) == Window(k.read, limit)
    ensures CountedWithin(w, ks + Repeated(k, limit), limit, from) == CountedWithin(w, ks, limit, from) + limit
  {
    OneTick(w, ks, k, limit, from);
    Burst(w, ks + [k], k, limit - 1, limit, from);
    assert ks + Repeated(k, limit) == ks + [k] + Repeated(k, limit - 1);
  }

  /** Packets read at the start of each second and all counted at once: one that
      begins a window early, the rest of that window, and j full ones. */
  function Backlog(limit: nat, from: int, j: nat): seq<Tick>
    requires limit > 0
  {
    if j == 0 then [Tick(0, 0)] + Repeated(Tick(SECOND - 1, from), limit - 1)
    else Backlog(limit, from, j - 1) + Repeated(Tick(j * SECOND, from), limit)
  }

  lemma {:induction false} BacklogCounts(limit: nat, from: int, j: nat)
    requires limit > 0 && from > 0
    ensures var w, ks := Window(-SECOND, 0), Backlog(limit, from, j);
      After(w, Reads(ks)) == Window(j * SECOND, limit) && CountedWithin(w, ks, limit, from) + 1 == Limits(j + 1, limit)
  {
    if j == 0 {
      FirstOfBacklog(limit, from);
    } else {
      BacklogCounts(limit, from, j - 1);
      NextOfBacklog(limit, from, j);
    }
  }

  /** n limits together. */
  function Limits(n: nat, limit: nat): nat
  {
    if n == 0 then 0 else Limits(n - 1, limit) + limit
  }

  lemma {:induction false} LimitsMultiply(n: nat, limit: nat)
    ensures Limits(n, limit) == n * limit
  {
    if n > 0 {
      LimitsMultiply(n - 1, limit);
      TimesGrows(n - 1, n, limit);
    }
  }

  lemma NextOfBacklog(limit: nat, from: int, j: nat)
    requires limit > 0 && j > 0 && After(Window(-SECOND, 0), Reads(Backlog(limit, from, j - 1))).start == (j - 1) * SECOND
    ensures var w, ks := Window(-SECOND, 0), Backlog(limit, from, j);
      After(w, Reads(ks)) == Window(j * SECOND, limit)
      && CountedWithin(w, ks, limit, from) == CountedWithin(w, Backlog(limit, from, j - 1), limit, from) + limit
  {
    FullWindow(Window(-SECOND, 0), Backlog(limit, from, j - 1), Tick(j * SECOND, from), limit, from);
  }

  lemma FirstOfBacklog(limit: nat, from: int)
    requires limit > 0 && from > 0
    ensures var w, ks := Window(-SECOND, 0), [Tick(0, 0)] + Repeated(Tick(SECOND - 1, from), limit - 1);
      After(w, Reads(ks)) == Window(0, limit) && CountedWithin(w, ks, limit, from) == limit - 1
  {
    var w, first := Window(-SECOND, 0), Tick(0, 0);
    OneTick(w, [], first, limit, from);
    assert [] + [first] == [first] && Reads([]) == [];
    Burst(w, [first], Tick(SECOND - 1, from), limit - 1, limit, from);
  }

  lemma {:induction false} BacklogIsTimely(limit: nat, from: int, j: nat, lag: nat)
    requires limit > 0 && j * SECOND <= from == lag + SECOND - 1
    ensures var ks := Backlog(limit, from, j);
      Timely(ks, lag) && ks != [] && ks[0] == Tick(0, 0) && forall i :: 0 <= i < |ks| ==> ks[i].at <= from
  {
    if j > 0 {
      BacklogIsTimely(limit, from, j - 1, lag);
    }
  }

  /** A backlog behind readings that are whole seconds late, and one window more
      that begins on time. */
  function Flood(limit: nat, seconds: nat): seq<Tick>
    requires limit > 0
  {
    Backlog(limit, (seconds + 1) * SECOND - 1, seconds) + Repeated(Tick((seconds + 1) * SECOND, (seconds + 1) * SECOND), limit)
  }

  lemma FloodCounts(limit: nat, seconds: nat)
    requires limit > 0
    ensures CountedWithin(Window(-SECOND, 0), Flood(limit, seconds), limit, (seconds + 1) * SECOND - 1) + 1
         == Limits(seconds + 2, limit)
  {
    var w, from, t := Window(-SECOND, 0), (seconds + 1) * SECOND - 1, (seconds + 1) * SECOND;
    BacklogCounts(limit, from, seconds);
    FullWindow(w, Backlog(limit, from, seconds), Tick(t, t), limit, from);
  }

  lemma FloodIsTimely(limit: nat, seconds: nat)
    requires limit > 0
    ensures Timely(Flood(limit, seconds), seconds * SECOND) && Unused(Window(-SECOND, 0), Reads(Flood(limit, seconds)))
  {
    BacklogIsTimely(limit, (seconds + 1) * SECOND - 1, seconds, seconds * SECOND);
  }

  /** The bound is met for readings that are whole seconds late. */
  lemma LateBoundIsReached(limit: nat, seconds: nat)
    requires limit > 0
    ensures var w, lag := Window(-SECOND, 0), seconds * SECOND;
      exists ks, from :: Timely(ks, lag) && Unused(w, Reads(ks)) && CountedWithin(w, ks, limit, from) == (2 + seconds) * limit - 1
  {
    FloodIsTimely(limit, seconds);
    FloodCounts(limit, seconds);
    LimitsMultiply(seconds + 2, limit);
    var w, from := Window(-SECOND, 0), (seconds + 1) * SECOND - 1;
    assert CountedWithin(w, Flood(limit, seconds), limit, from) == (2 + seconds) * limit - 1;
  }

  // ---- readings that are never late ----

  function OnTime(ts: seq<int>): seq<Tick>
  {
    seq(|ts|, i requires 0 <= i < |ts| => Tick(ts[i], ts[i]))
  }

  /** How many of the packets at times ts are admitted within [from, from+1s). */
  function AdmittedWithin(w: Window, ts: seq<int>, limit: nat, from: int): nat
  {
    CountedWithin(w, OnTime(ts), limit, from)
  }

  /** Whatever the arrivals, any half-open second admits less than twice the
      limit of a window. */
  lemma LessThanTwice(w: Window, ts: seq<int>, limit: nat, from: int)
    requires NonDecreasing(ts) && Unused(w, ts)
    ensures AdmittedWithin(w, ts, limit, from) == 0 || AdmittedWithin(w, ts, limit, from) < 2 * limit
  {
    assert Reads(OnTime(ts)) == ts;
    LateLimit(w, OnTime(ts), limit, from, 0);
  }

  /** The bound is met: a packet, a burst just before its window closes, and
      another burst that opens the next one. */
  lemma BoundIsReached(limit: nat)
    requires limit > 0
    ensures var w := Window(-SECOND, 0);
            exists ts, from :: NonDecreasing(ts) && Unused(w, ts) && AdmittedWithin(w, ts, limit, from) == 2 * limit - 1
  {
    var w := Window(-SECOND, 0);
    LateBoundIsReached(limit, 0);
    var ks, from :| Timely(ks, 0) && Unused(w, Reads(ks)) && CountedWithin(w, ks, limit, from) == 2 * limit - 1;
    var ts := Reads(ks);
    assert OnTime(ts) == ks;
    assert NonDecreasing(ts) && Unused(w, ts) && AdmittedWithin(w, ts, limit, from) == 2 * limit - 1;
  }
}
