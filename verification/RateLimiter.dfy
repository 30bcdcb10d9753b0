/** internal/transport/xhttp/ratelimit.go: at most maxRate requests per IP and window, with a background sweep. */
module RateLimiter {
  import opened Common

  const COLON: byte := 58

  datatype Slot = Slot(count: int, windowAt: int)

  type Table = map<Bytes, Slot>

  datatype Limits = Limits(maxRate: int, window: int) {
    /** What NewRateLimiter's ticker and the admission rule need. */
    predicate Real() {
      maxRate >= 1 && window >= 1
    }
  }

  /** The slot after a request at time now; it was admitted iff its count does not exceed maxRate. */
  function Touch(l: Limits, o: Option<Slot>, now: int): Slot {
    match o
    case None => Slot(1, now)
    case Some(s) => if now - s.windowAt > l.window then Slot(1, now) else Slot(s.count + 1, s.windowAt)
  }

  function Lookup(m: Table, ip: Bytes): Option<Slot> {
    if ip in m then Some(m[ip]) else None
  }

  function Swept(l: Limits, m: Table, now: int): Table {
    map ip | ip in m && now - m[ip].windowAt <= 2 * l.window :: m[ip]
  }

  /** The address without its port: everything before the last colon. */
  ghost predicate IsHostOf(ip: Bytes, addr: Bytes) {
    if COLON in addr then ip < addr && addr[|ip|] == COLON && COLON !in addr[|ip| + 1..] else ip == addr
  }

  class Limiter {
    var clients: Table
    const limits: Limits

    constructor (limits: Limits)
      ensures this.limits == limits && clients == map[]
    {
      this.limits := limits;
      this.clients := map[];
    }

    method StripPort(addr: Bytes) returns (ip: Bytes)
      ensures IsHostOf(ip, addr)
    {
      var i := |addr| - 1;
      while i >= 0
        invariant -1 <= i < |addr|
        invariant COLON !in addr[i + 1..]
      {
        if addr[i] == COLON {
          return addr[..i];
        }
        assert addr[i..] == [addr[i]] + addr[i + 1..];
        i := i - 1;
      }
      assert addr[0..] == addr;
      return addr;
    }

    method Allow(addr: Bytes, now: int) returns (ok: bool, ghost ip: Bytes)
      modifies this
      ensures limits.maxRate <= 0 ==> ok && clients == old(clients)
      ensures limits.maxRate > 0 ==>
                && IsHostOf(ip, addr)
                && clients == old(clients)[ip := Touch(limits, Lookup(old(clients), ip), now)]
                && ok == (clients[ip].count <= limits.maxRate)
      ensures limits.maxRate > 0 && (ip !in old(clients) || now - old(clients)[ip].windowAt > limits.window) ==>
                ok && clients[ip] == Slot(1, now)
      ensures limits.maxRate > 0 && ip in old(clients) && now - old(clients)[ip].windowAt <= limits.window ==>
                && clients[ip] == Slot(old(clients)[ip].count + 1, old(clients)[ip].windowAt)
                && (ok <==> old(clients)[ip].count < limits.maxRate)
    {
      ip := addr;
      if limits.maxRate <= 0 {
        return true, addr;
      }
      var host := StripPort(addr);
      if host !in clients {
        clients := clients[host := Slot(1, now)];
        return true, host;
      }
      var cr := clients[host];
      if now - cr.windowAt > limits.window {
        clients := clients[host := Slot(1, now)];
        return true, host;
      }
      clients := clients[host := Slot(cr.count + 1, cr.windowAt)];
      return cr.count + 1 <= limits.maxRate, host;
    }

    /** One sweep of the cleanup loop. */
    method Cleanup(now: int)
      modifies this
      ensures clients == Swept(limits, old(clients), now)
      ensures forall ip :: ip in clients <==> ip in old(clients) && now - old(clients)[ip].windowAt <= 2 * limits.window
      ensures forall ip :: ip in clients ==> clients[ip] == old(clients)[ip]
    {
      var todo := clients.Keys;
      while todo != {}
        invariant todo <= old(clients).Keys
        invariant forall ip :: ip in clients ==> ip in old(clients) && clients[ip] == old(clients)[ip]
        invariant forall ip :: ip in old(clients) ==>
                    (ip in clients <==> ip in todo || now - old(clients)[ip].windowAt <= 2 * limits.window)
        decreases |todo|
      {
        var ip :| ip in todo;
        if now - clients[ip].windowAt > limits.window * 2 {
          clients := clients - {ip};
        }
        todo := todo - {ip};
      }
    }
  }

  // ---- Runs ----

  datatype Event = Request(ip: Bytes, at: int) | Sweep(at: int)

  function Handle(l: Limits, m: Table, e: Event): Table {
    match e
    case Request(ip, at) => m[ip := Touch(l, Lookup(m, ip), at)]
    case Sweep(at) => Swept(l, m, at)
  }

  function After(l: Limits, es: seq<Event>): Table {
    if es == [] then map[] else Handle(l, After(l, es[..|es| - 1]), es[|es| - 1])
  }

  /** The clock never goes back. */
  ghost predicate Ordered(es: seq<Event>) {
    forall i, j :: 0 <= i < j < |es| ==> es[i].at <= es[j].at
  }

  /** Whether the k-th event is an admitted request. */
  predicate Admits(l: Limits, es: seq<Event>, k: nat)
    requires k < |es|
  {
    es[k].Request? && Touch(l, Lookup(After(l, es[..k]), es[k].ip), es[k].at).count <= l.maxRate
  }

  /** How many requests of ip are admitted in the closed interval [lo, hi]. */
  function Admitted(l: Limits, es: seq<Event>, ip: Bytes, lo: int, hi: int): nat {
    if es == [] then 0
    else
      var n := |es| - 1;
      var e := es[n];
      Admitted(l, es[..n], ip, lo, hi)
        + if e.Request? && e.ip == ip && lo <= e.at <= hi && Admits(l, es, n) then 1 else 0
  }

  // ---- Eviction is transparent ----

  function Unswept(es: seq<Event>): seq<Event> {
    if es == [] then []
    else
      var n := |es| - 1;
      if es[n].Sweep? then Unswept(es[..n]) else Unswept(es[..n]) + [es[n]]
  }

  /** A slot may be missing only when its window is long over. */
  ghost predicate Stale(l: Limits, kept: Option<Slot>, full: Option<Slot>, now: int) {
    kept == full || (kept == None && full.Some? && now - full.value.windowAt > l.window)
  }

  lemma {:induction false} SweepHides(l: Limits, es: seq<Event>, ip: Bytes, now: int)
    requires l.Real() && Ordered(es) && (es != [] ==> es[|es| - 1].at <= now)
    ensures Stale(l, Lookup(After(l, es), ip), Lookup(After(l, Unswept(es)), ip), now)
  {
    if es != [] {
      var n := |es| - 1;
      var front, e := es[..n], es[n];
      SweepHides(l, front, ip, e.at);
      if e.Request? {
        var u := Unswept(front);
        assert (u + [e])[..|u|] == u;
      }
    }
  }

  /** Every answer is the one that would have been given had nothing ever been evicted. */
  lemma EvictionTransparent(l: Limits, es: seq<Event>, ip: Bytes, now: int)
    requires l.Real() && Ordered(es) && (es != [] ==> es[|es| - 1].at <= now)
    ensures Touch(l, Lookup(After(l, es), ip), now) == Touch(l, Lookup(After(l, Unswept(es)), ip), now)
  {
    SweepHides(l, es, ip, now);
  }

  // ---- Fairness ----

  /** A request of this IP at this time, were nothing ever evicted: the one that opens a window is admitted, and within
      the window the first maxRate are. */
  lemma AdmitsWithinRate(l: Limits, es: seq<Event>, k: nat)
    requires l.Real() && Ordered(es) && k < |es| && es[k].Request?
    ensures var o := Lookup(After(l, Unswept(es[..k])), es[k].ip);
            Admits(l, es, k) <==> o.None? || es[k].at - o.value.windowAt > l.window || o.value.count < l.maxRate
  {
    assert Ordered(es[..k]);
    EvictionTransparent(l, es[..k], es[k].ip, es[k].at);
  }

  /** A client that has been silent for more than a window is admitted. */
  lemma QuietIsAdmitted(l: Limits, es: seq<Event>, k: nat)
    requires l.Real() && Ordered(es) && k < |es| && es[k].Request?
    requires forall j :: 0 <= j < k && es[j].Request? && es[j].ip == es[k].ip ==> es[k].at - es[j].at > l.window
    ensures Admits(l, es, k)
  {
    var front := es[..k];
    assert Ordered(front);
    StartsAtARequest(l, front, es[k].ip);
  }

  /** A window starts at the time of a request. */
  lemma {:induction false} StartsAtARequest(l: Limits, es: seq<Event>, ip: Bytes)
    ensures var o := Lookup(After(l, es), ip);
            o.Some? ==> exists j :: 0 <= j < |es| && es[j] == Request(ip, o.value.windowAt)
  {
    if es != [] {
      var n := |es| - 1;
      StartsAtARequest(l, es[..n], ip);
      var was, now := Lookup(After(l, es[..n]), ip), Lookup(After(l, es), ip);
      if now.Some? {
        if was.Some? && now.value.windowAt == was.value.windowAt {
          var j :| 0 <= j < |es[..n]| && es[..n][j] == Request(ip, was.value.windowAt);
          assert es[j] == Request(ip, now.value.windowAt);
        } else {
          assert es[n] == Request(ip, now.value.windowAt);
        }
      }
    }
  }

  // ---- The bound ----

  /** The slot of ip, the admissions so far and the last time, against the interval [lo, hi]. */
  ghost predicate Within(l: Limits, o: Option<Slot>, admitted: nat, last: int, lo: int, hi: int) {
    && (last < lo ==> admitted == 0)
    && match o
       case None => admitted == 0
       case Some(s) =>
         && s.count >= 1 && s.windowAt <= last
         && (s.windowAt < lo ==> admitted <= Min(s.count, l.maxRate) - 1)
         && (lo <= s.windowAt <= hi ==> admitted <= l.maxRate - 1 + Min(s.count, l.maxRate))
         && admitted <= 2 * l.maxRate - 1
  }

  lemma WithinStep(l: Limits, o: Option<Slot>, admitted: nat, last: int, now: int, lo: int, hi: int)
    requires l.Real() && hi - lo <= l.window && last <= now && Within(l, o, admitted, last, lo, hi)
    ensures var s := Touch(l, o, now);
            var more := if lo <= now <= hi && s.count <= l.maxRate then 1 else 0;
            Within(l, Some(s), admitted + more, now, lo, hi)
  {
  }

  /** The events without their sweeps, told apart by what the full table would answer. */
  lemma {:induction false} WithinRun(l: Limits, es: seq<Event>, ip: Bytes, last: int, lo: int, hi: int)
    requires l.Real() && Ordered(es) && hi - lo <= l.window && (es != [] ==> es[|es| - 1].at <= last)
    ensures Within(l, Lookup(After(l, Unswept(es)), ip), Admitted(l, es, ip, lo, hi), last, lo, hi)
  {
    if es != [] {
      var n := |es| - 1;
      var front, e := es[..n], es[n];
      WithinRun(l, front, ip, e.at, lo, hi);
      if e.Request? {
        var u := Unswept(front);
        assert (u + [e])[..|u|] == u;
        if e.ip == ip {
          EvictionTransparent(l, front, ip, e.at);
          WithinStep(l, Lookup(After(l, u), ip), Admitted(l, front, ip, lo, hi), e.at, e.at, lo, hi);
        }
      }
    }
  }

  /** No closed interval of one window's length admits more than 2 * maxRate - 1 requests of one IP. */
  lemma RateBound(l: Limits, es: seq<Event>, ip: Bytes, lo: int, hi: int)
    requires l.Real() && Ordered(es) && hi - lo <= l.window
    ensures Admitted(l, es, ip, lo, hi) <= 2 * l.maxRate - 1
  {
    WithinRun(l, es, ip, if es == [] then 0 else es[|es| - 1].at, lo, hi);
  }

  ghost predicate Bounds(l: Limits, b: int) {
    forall es, ip, lo, hi :: Ordered(es) && hi - lo <= l.window ==> Admitted(l, es, ip, lo, hi) <= b
  }

  /** k requests of one IP at one moment. */
  function Burst(k: nat, at: int): seq<Event> {
    seq(k, _ => Request([], at))
  }

  /** The last request of a run. */
  lemma LastOne(l: Limits, es: seq<Event>, at: int, lo: int, hi: int)
    requires es != [] && es[|es| - 1] == Request([], at) && lo <= at <= hi
    ensures var front := es[..|es| - 1];
            var now := Touch(l, Lookup(After(l, front), []), at);
            && Lookup(After(l, es), []) == Some(now)
            && Admitted(l, es, [], lo, hi) == Admitted(l, front, [], lo, hi) + if now.count <= l.maxRate then 1 else 0
  {
  }

  /** A burst from the m-th event on, within a window that has room for it. */
  lemma {:induction false} BurstAdmits(l: Limits, es: seq<Event>, m: nat, at: int, lo: int, hi: int, s: Slot)
    requires lo <= at <= hi && m <= |es|
    requires forall i :: m <= i < |es| ==> es[i] == Request([], at)
    requires Lookup(After(l, es[..m]), []) == Some(s) && at - s.windowAt <= l.window && s.count + |es| - m <= l.maxRate
    ensures Lookup(After(l, es), []) == Some(Slot(s.count + |es| - m, s.windowAt))
    ensures Admitted(l, es, [], lo, hi) == Admitted(l, es[..m], [], lo, hi) + |es| - m
    decreases |es|
  {
    if |es| == m {
      assert es[..m] == es;
    } else {
      var front := es[..|es| - 1];
      assert front[..m] == es[..m];
      BurstAdmits(l, front, m, at, lo, hi, s);
      LastOne(l, es, at, lo, hi);
    }
  }

  /** The run that reaches the bound: one request, a burst at the end of its window, a full burst just after. */
  function EarlyRun(l: Limits): seq<Event>
    requires l.Real()
  {
    [Request([], 0)] + Burst(l.maxRate - 1, l.window)
  }

  function BoundRun(l: Limits): seq<Event>
    requires l.Real()
  {
    EarlyRun(l) + [Request([], l.window + 1)] + Burst(l.maxRate - 1, l.window + 1)
  }

  lemma BoundRunOrdered(l: Limits)
    requires l.Real()
    ensures Ordered(BoundRun(l))
  {
    var es := BoundRun(l);
    var m := l.maxRate;
    assert forall i :: 0 <= i < |es| ==> es[i].at == if i == 0 then 0 else if i < m then l.window else l.window + 1;
  }

  lemma EarlyRunAdmits(l: Limits)
    requires l.Real()
    ensures Lookup(After(l, EarlyRun(l)), []) == Some(Slot(l.maxRate, 0))
    ensures Admitted(l, EarlyRun(l), [], l.window, 2 * l.window) == l.maxRate - 1
  {
    FirstRequest(l, l.window, 2 * l.window);
    assert EarlyRun(l)[..1] == [Request([], 0)];
    BurstAdmits(l, EarlyRun(l), 1, l.window, l.window, 2 * l.window, Slot(1, 0));
  }

  lemma BoundReached(l: Limits)
    requires l.Real()
    ensures Admitted(l, BoundRun(l), [], l.window, 2 * l.window) == 2 * l.maxRate - 1
  {
    var lo, hi, m := l.window, 2 * l.window, l.maxRate;
    var turn := BoundRun(l)[..m + 1];
    EarlyRunAdmits(l);
    assert turn[..m] == EarlyRun(l);
    LastOne(l, turn, lo + 1, lo, hi);
    BurstAdmits(l, BoundRun(l), m + 1, lo + 1, lo, hi, Slot(1, lo + 1));
  }

  lemma FirstRequest(l: Limits, lo: int, hi: int)
    requires 0 < lo
    ensures Lookup(After(l, [Request([], 0)]), []) == Some(Slot(1, 0))
    ensures Admitted(l, [Request([], 0)], [], lo, hi) == 0
  {
    assert [Request([], 0)][..0] == [];
  }

  /** 2 * maxRate - 1 is exactly the most that any interval can see. */
  lemma RateBoundExactly(l: Limits, b: int)
    requires l.Real()
    ensures Bounds(l, b) <==> b >= 2 * l.maxRate - 1
  {
    if b >= 2 * l.maxRate - 1 {
      forall es, ip, lo, hi | Ordered(es) && hi - lo <= l.window ensures Admitted(l, es, ip, lo, hi) <= b {
        RateBound(l, es, ip, lo, hi);
      }
    } else {
      BoundReached(l);
      BoundRunOrdered(l);
      assert Admitted(l, BoundRun(l), [], l.window, 2 * l.window) > b;
    }
  }
}
