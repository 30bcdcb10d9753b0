/** internal/session/manager.go, the Manager: the table of sessions, and their lifetimes. The table is guarded by a lock
    that a sweep holds throughout; MarkConnected and Close do not take it, and come between the sweep's steps. */
module SessionTable {
  import opened Common

  /** The 128-bit identifier, as a number. */
  type Id = nat

  /** What the table looks at in a session. */
  datatype Lease = Lease(id: Id, createdAt: int, connected: bool, closed: bool) {
    predicate Expired(now: int, ttl: int) {
      now - createdAt > ttl
    }

    /** What a sweep that nobody disturbs evicts. */
    predicate Evicted(now: int, ttl: int) {
      if connected then closed else Expired(now, ttl)
    }

    predicate Open() {
      !closed
    }
  }

  /** Every session ever made, in order, and which of them the table holds under each identifier. */
  datatype Table = Table(made: seq<Lease>, entries: map<Id, nat>) {
    ghost predicate Coherent() {
      forall id :: id in entries ==> entries[id] < |made| && made[entries[id]].id == id
    }

    predicate Lists(o: nat) {
      o < |made| && made[o].id in entries && entries[made[o].id] == o
    }

    predicate Listed(id: Id) {
      id in entries && entries[id] < |made|
    }
  }

  /** What the select saw of an identifier's session. */
  datatype Sight = Sight(id: Id, connected: bool)

  /** The cleanup goroutine: between ticks, or walking the map with the lock held. */
  datatype Sweeper = Resting | Walking(now: int, todo: set<Id>, at: Option<Sight>)

  datatype World = World(t: Table, sweeper: Sweeper)

  /** A session's own flags, set without the table's lock: by a GET handler, and by the conn that holds it. */
  datatype Flip = Connect(o: nat) | Shut(o: nat)

  datatype Event =
    | Lookup(id: Id, now: int)  // GetOrCreate
    | Drop(id: Id)              // Remove
    | Begin(now: int)           // a tick: the sweep takes the lock
    | See(id: Id)               // the select on an identifier's connected channel
    | Act                       // what follows it: nothing, delete, or Close and delete
    | End
    | Flips(f: Flip)

  const EMPTY := Table([], map[])
  const START := World(EMPTY, Resting)

  function Looked(t: Table, id: Id, now: int): Table {
    if id in t.entries then t
    else Table(t.made + [Lease(id, now, false, false)], t.entries[id := |t.made|])
  }

  function Dropped(t: Table, id: Id): Table {
    if t.Listed(id) then
      Table(t.made[t.entries[id] := t.made[t.entries[id]].(closed := true)], t.entries - {id})
    else t
  }

  function Flipped(t: Table, f: Flip): Table {
    if f.o >= |t.made| then t
    else match f
      case Connect(o) => t.(made := t.made[o := t.made[o].(connected := true)])
      case Shut(o) => t.(made := t.made[o := t.made[o].(closed := true)])
  }

  function Acted(t: Table, ttl: int, now: int, sight: Sight): Table {
    if !t.Listed(sight.id) then t
    else
      var s := t.made[t.entries[sight.id]];
      if sight.connected then if s.closed then t.(entries := t.entries - {sight.id}) else t
      else if s.Expired(now, ttl) then Dropped(t, sight.id)
      else t
  }

  /** An event that cannot happen now changes nothing. */
  function Happen(w: World, ttl: int, e: Event): World {
    match e
    case Lookup(id, now) => if w.sweeper.Resting? then w.(t := Looked(w.t, id, now)) else w
    case Drop(id) => if w.sweeper.Resting? then w.(t := Dropped(w.t, id)) else w
    case Begin(now) => if w.sweeper.Resting? then w.(sweeper := Walking(now, w.t.entries.Keys, None)) else w
    case See(id) =>
      if w.sweeper.Walking? && w.sweeper.at.None? && id in w.sweeper.todo && w.t.Listed(id) then
        w.(sweeper := w.sweeper.(todo := w.sweeper.todo - {id},
                                 at := Some(Sight(id, w.t.made[w.t.entries[id]].connected))))
      else w
    case Act =>
      if w.sweeper.Walking? && w.sweeper.at.Some? then
        World(Acted(w.t, ttl, w.sweeper.now, w.sweeper.at.value), w.sweeper.(at := None))
      else w
    case End =>
      if w.sweeper.Walking? && w.sweeper.at.None? && w.sweeper.todo == {} then w.(sweeper := Resting) else w
    case Flips(f) => w.(t := Flipped(w.t, f))
  }

  function Follow(w: World, ttl: int, events: seq<Event>): World {
    if events == [] then w else Happen(Follow(w, ttl, events[..|events| - 1]), ttl, events[|events| - 1])
  }

  function Reach(ttl: int, events: seq<Event>): World {
    Follow(START, ttl, events)
  }

  lemma FollowSnoc(w: World, ttl: int, events: seq<Event>, e: Event)
    ensures Follow(w, ttl, events + [e]) == Happen(Follow(w, ttl, events), ttl, e)
  {
    assert (events + [e])[..|events|] == events;
  }

  lemma {:induction false} FollowMore(w: World, ttl: int, events: seq<Event>, more: seq<Event>)
    ensures Follow(w, ttl, events + more) == Follow(Follow(w, ttl, events), ttl, more)
  {
    if more == [] {
      assert events + more == events;
    } else {
      var n := |more| - 1;
      assert events + more == events + more[..n] + [more[n]];
      FollowSnoc(w, ttl, events + more[..n], more[n]);
      FollowMore(w, ttl, events, more[..n]);
    }
  }

  // ---- In every run ----

  /** An open session is the one its identifier lists; and what the sweep has still to see, or has seen, is listed. */
  ghost predicate Inv(w: World) {
    && w.t.Coherent()
    && (forall o: nat :: o < |w.t.made| && w.t.made[o].Open() ==> w.t.Lists(o))
    && (w.sweeper.Walking? ==>
          && w.sweeper.todo <= w.t.entries.Keys
          && (w.sweeper.at.Some? ==> w.sweeper.at.value.id in w.t.entries && w.sweeper.at.value.id !in w.sweeper.todo))
  }

  lemma InvStep(w: World, ttl: int, e: Event)
    requires Inv(w)
    ensures Inv(Happen(w, ttl, e))
  {
    var w' := Happen(w, ttl, e);
    forall o: nat | o < |w'.t.made| && w'.t.made[o].Open() ensures w'.t.Lists(o) {
      if o < |w.t.made| {
        assert w.t.made[o].Open() && w.t.Lists(o);
      }
    }
  }

  lemma {:induction false} InvFollow(w: World, ttl: int, events: seq<Event>)
    requires Inv(w)
    ensures Inv(Follow(w, ttl, events))
  {
    if events != [] {
      var n := |events| - 1;
      InvFollow(w, ttl, events[..n]);
      InvStep(Follow(w, ttl, events[..n]), ttl, events[n]);
    }
  }

  lemma OpenIsListedAlways(ttl: int, events: seq<Event>)
    ensures var t := Reach(ttl, events).t;
            Inv(Reach(ttl, events)) && forall o: nat :: o < |t.made| && t.made[o].Open() ==> t.Lists(o)
  {
    InvFollow(START, ttl, events);
  }

  /** At no time are two sessions of one identifier open. */
  lemma OneOpenPerId(ttl: int, events: seq<Event>, o: nat, p: nat)
    requires var made := Reach(ttl, events).t.made;
             o < |made| && p < |made| && made[o].Open() && made[p].Open() && made[o].id == made[p].id
    ensures o == p
  {
    OpenIsListedAlways(ttl, events);
    assert Reach(ttl, events).t.Lists(o) && Reach(ttl, events).t.Lists(p);
  }

  /** The o-th session in a later table: the same identifier and birth, and closed or connected if it was. */
  predicate Older(was: Table, now: Table, o: nat)
    requires o < |was.made|
  {
    && o < |now.made|
    && now.made[o].id == was.made[o].id && now.made[o].createdAt == was.made[o].createdAt
    && (now.made[o].Open() ==> was.made[o].Open())
    && (was.made[o].connected ==> now.made[o].connected)
  }

  lemma OlderStep(w: World, ttl: int, e: Event, o: nat)
    requires o < |w.t.made|
    ensures Older(w.t, Happen(w, ttl, e).t, o)
  {
  }

  lemma {:induction false} History(w: World, ttl: int, more: seq<Event>, o: nat)
    requires o < |w.t.made|
    ensures Older(w.t, Follow(w, ttl, more).t, o)
  {
    if more != [] {
      var n := |more| - 1;
      History(w, ttl, more[..n], o);
      OlderStep(Follow(w, ttl, more[..n]), ttl, more[n], o);
    }
  }

  /** From its creation until it is closed, GetOrCreate hands out this session for its identifier and no other. */
  lemma SameSessionUntilClosed(ttl: int, events: seq<Event>, until: seq<Event>, after: seq<Event>, o: nat, now: int)
    requires o < |Reach(ttl, events).t.made|
    requires var t := Reach(ttl, events + until + after).t; o < |t.made| ==> t.made[o].Open()
    ensures var t := Reach(ttl, events + until).t;
            var id := Reach(ttl, events).t.made[o].id;
            Looked(t, id, now) == t && id in t.entries && t.entries[id] == o
  {
    FollowMore(START, ttl, events, until);
    FollowMore(START, ttl, events + until, after);
    History(Reach(ttl, events), ttl, until, o);
    History(Reach(ttl, events + until), ttl, after, o);
    OpenIsListedAlways(ttl, events + until);
    assert Reach(ttl, events + until).t.Lists(o);
  }

  /** GetOrCreate can hand out a dead session: one that its conn has closed stays listed until a sweep finds it. What
      it returns is open exactly when the identifier is free or has an open session. */
  lemma LookupIsOpenExactly(ttl: int, events: seq<Event>, id: Id, now: int)
    ensures var t := Reach(ttl, events).t;
            var t' := Looked(t, id, now);
            t'.Listed(id) &&
            (t'.made[t'.entries[id]].Open()
             <==> id !in t.entries || exists o: nat :: o < |t.made| && t.made[o].id == id && t.made[o].Open())
  {
    OpenIsListedAlways(ttl, events);
  }

  lemma ClosedSessionHandedOut(ttl: int)
    ensures var t := Reach(ttl, [Lookup(1, 0), Flips(Connect(0)), Flips(Shut(0))]).t;
            Looked(t, 1, 5) == t && t.Listed(1) && !t.made[t.entries[1]].Open()
  {
    var made := [Lookup(1, 0)];
    FollowSnoc(START, ttl, [], Lookup(1, 0));
    assert [] + made == made;
    assert Reach(ttl, made).t == Table([Lease(1, 0, false, false)], map[1 := 0]);
    FollowSnoc(START, ttl, made, Flips(Connect(0)));
    FollowSnoc(START, ttl, made + [Flips(Connect(0))], Flips(Shut(0)));
    assert made + [Flips(Connect(0))] + [Flips(Shut(0))] == [Lookup(1, 0), Flips(Connect(0)), Flips(Shut(0))];
  }

  // ---- The sweep against the flags ----

  /** What becomes of the o-th session while the sweep is between its select and what follows: its flags are its own. */
  ghost predicate Flagged(w: World, w': World, mid: seq<Event>, o: nat)
    requires o < |w.t.made|
  {
    && w'.sweeper == w.sweeper && w'.t.entries == w.t.entries && |w'.t.made| == |w.t.made|
    && var s, s' := w.t.made[o], w'.t.made[o];
       && s'.id == s.id && s'.createdAt == s.createdAt
       && s'.connected == (s.connected || Flips(Connect(o)) in mid)
       && s'.closed == (s.closed || Flips(Shut(o)) in mid)
  }

  lemma FlaggedSnoc(w: World, w': World, ttl: int, mid: seq<Event>, e: Event, o: nat)
    requires o < |w.t.made| && w.sweeper.Walking? && w.sweeper.at.Some? && e != Act && Flagged(w, w', mid, o)
    ensures Flagged(w, Happen(w', ttl, e), mid + [e], o)
  {
  }

  lemma {:induction false} BetweenSeeAndAct(w: World, ttl: int, mid: seq<Event>, o: nat)
    requires o < |w.t.made| && w.sweeper.Walking? && w.sweeper.at.Some? && Act !in mid
    ensures Flagged(w, Follow(w, ttl, mid), mid, o)
  {
    if mid != [] {
      var n := |mid| - 1;
      BetweenSeeAndAct(w, ttl, mid[..n], o);
      FlaggedSnoc(w, Follow(w, ttl, mid[..n]), ttl, mid[..n], mid[n], o);
      assert mid[..n] + [mid[n]] == mid;
    }
  }

  /** Before the select, before what follows it, and after that. */
  datatype Visited = Visited(now: int, before: World, seen: World, after: World, o: nat) {
    ghost predicate Says(ttl: int, mid: seq<Event>)
      requires o < |before.t.made| && o < |seen.t.made| && o < |after.t.made|
    {
      var s0, s1, s2 := before.t.made[o], seen.t.made[o], after.t.made[o];
      // Only the flags set in between count.
      && s1.connected == (s0.connected || Flips(Connect(o)) in mid)
      && s1.Open() == (s0.Open() && Flips(Shut(o)) !in mid)
      // Evicted exactly if seen connected and closed by now, or seen unconnected past the TTL; and then it is closed.
      && (s0.id in after.t.entries <==> if s0.connected then s1.Open() else now - s0.createdAt <= ttl)
      && (s0.id !in after.t.entries ==> !s2.Open())
      // Closed by the sweep exactly if open until then, and seen unconnected past the TTL.
      && (s2.Open() <==> s1.Open() && (s0.connected || now - s0.createdAt <= ttl))
      // A session that the sweep closes connected is one that connected just then.
      && (s1.Open() && !s2.Open() ==> (s2.connected <==> Flips(Connect(o)) in mid))
    }
  }

  /** One visit of a sweep, with anything the rest of the program does between its select and what follows it. */
  lemma VisitExactly(ttl: int, pre: seq<Event>, id: Id, mid: seq<Event>) returns (v: Visited)
    requires var w := Reach(ttl, pre); w.sweeper.Walking? && w.sweeper.at.None? && id in w.sweeper.todo
    requires Act !in mid
    ensures v.before == Reach(ttl, pre) && v.now == v.before.sweeper.now && id in v.before.t.entries
    ensures v.o == v.before.t.entries[id] && v.o < |v.before.t.made|
    ensures v.before.t.made[v.o].id == id
    ensures v.seen == Reach(ttl, pre + [See(id)] + mid) && v.after == Reach(ttl, pre + [See(id)] + mid + [Act])
    ensures v.o < |v.seen.t.made| && v.o < |v.after.t.made| && v.Says(ttl, mid)
  {
    var w := Reach(ttl, pre);
    OpenIsListedAlways(ttl, pre);
    var o := w.t.entries[id];
    FollowSnoc(START, ttl, pre, See(id));
    FollowMore(START, ttl, pre + [See(id)], mid);
    FollowSnoc(START, ttl, pre + [See(id)] + mid, Act);
    var seeing := Reach(ttl, pre + [See(id)]);
    BetweenSeeAndAct(seeing, ttl, mid, o);
    var seen := Follow(seeing, ttl, mid);
    v := Visited(w.sweeper.now, w, seen, Happen(seen, ttl, Act), o);
  }

  /** It happens: a GET has its session, the sweep sees it unconnected past the TTL, the GET connects it, and the
      sweep closes and evicts a session that is connected. */
  function LateConnect(ttl: int): seq<Event> {
    [Lookup(1, 0), Begin(ttl + 1), See(1), Flips(Connect(0)), Act]
  }

  lemma ConnectedSessionEvicted(ttl: int)
    ensures Reach(ttl, LateConnect(ttl)).t == Table([Lease(1, 0, true, true)], map[])
  {
    var lease := Lease(1, 0, false, false);
    var made := [Lookup(1, 0)];
    FollowSnoc(START, ttl, [], Lookup(1, 0));
    assert [] + made == made;
    assert Reach(ttl, made) == World(Table([lease], map[1 := 0]), Resting);
    assert map[1 := 0].Keys == {1} && {1} - {1} == {};
    FollowSnoc(START, ttl, made, Begin(ttl + 1));
    var pre := made + [Begin(ttl + 1)];
    assert Reach(ttl, pre) == World(Table([lease], map[1 := 0]), Walking(ttl + 1, {1}, None));
    FollowSnoc(START, ttl, pre, See(1));
    assert Reach(ttl, pre + [See(1)]) == World(Table([lease], map[1 := 0]), Walking(ttl + 1, {}, Some(Sight(1, false))));
    FollowSnoc(START, ttl, pre + [See(1)], Flips(Connect(0)));
    FollowSnoc(START, ttl, pre + [See(1)] + [Flips(Connect(0))], Act);
    assert pre + [See(1)] + [Flips(Connect(0))] + [Act] == LateConnect(ttl);
    assert map[1 := 0] - {1} == map[];
  }

  /** Connected, open, listed, and no sweep has it in hand as unconnected. */
  ghost predicate Established(w: World, o: nat) {
    && w.t.Coherent() && w.t.Lists(o) && w.t.made[o].connected && w.t.made[o].Open()
    && (w.sweeper.Walking? ==> w.sweeper.at != Some(Sight(w.t.made[o].id, false)))
  }

  lemma EstablishedStep(w: World, ttl: int, e: Event, o: nat)
    requires Established(w, o) && e != Flips(Shut(o)) && e != Drop(w.t.made[o].id)
    ensures Established(Happen(w, ttl, e), o) && Happen(w, ttl, e).t.made[o].id == w.t.made[o].id
  {
  }

  /** Once established, a session stays open and listed through any number of sweeps until its conn closes it or
      Remove does. */
  lemma {:induction false} EstablishedStays(w: World, ttl: int, more: seq<Event>, o: nat)
    requires Established(w, o) && Flips(Shut(o)) !in more && Drop(w.t.made[o].id) !in more
    ensures Established(Follow(w, ttl, more), o) && Follow(w, ttl, more).t.made[o].id == w.t.made[o].id
  {
    if more != [] {
      var n := |more| - 1;
      assert more[n] in more;
      EstablishedStays(w, ttl, more[..n], o);
      EstablishedStep(Follow(w, ttl, more[..n]), ttl, more[n], o);
    }
  }

  // ---- A whole sweep ----

  /** How far the sweep has come with a session that nobody flips meanwhile. */
  ghost predicate Along(was: Table, w: World, ttl: int, now: int, o: nat)
    requires o < |was.made|
  {
    && o < |w.t.made| && w.sweeper.Walking? && w.sweeper.now == now
    && var s := was.made[o];
       if s.id in w.sweeper.todo then
         w.t.Lists(o) && w.t.made[o] == s && (w.sweeper.at.Some? ==> w.sweeper.at.value.id != s.id)
       else if w.sweeper.at.Some? && w.sweeper.at.value.id == s.id then
         w.t.Lists(o) && w.t.made[o] == s && w.sweeper.at.value.connected == s.connected
       else
         && w.t.made[o] == s.(closed := s.closed || s.Evicted(now, ttl))
         && (s.id in w.t.entries <==> !s.Evicted(now, ttl))
         && (s.id in w.t.entries ==> w.t.entries[s.id] == o)
  }

  lemma AlongStep(was: Table, w: World, ttl: int, now: int, o: nat, e: Event)
    requires o < |was.made| && Along(was, w, ttl, now, o) && Inv(w)
    requires e != Flips(Connect(o)) && e != Flips(Shut(o)) && e != End
    ensures Along(was, Happen(w, ttl, e), ttl, now, o)
  {
  }

  lemma {:induction false} AlongFollow(was: Table, w: World, ttl: int, now: int, o: nat, mid: seq<Event>)
    requires o < |was.made| && Along(was, w, ttl, now, o) && Inv(w)
    requires Flips(Connect(o)) !in mid && Flips(Shut(o)) !in mid && End !in mid
    ensures Along(was, Follow(w, ttl, mid), ttl, now, o)
  {
    if mid != [] {
      var n := |mid| - 1;
      assert mid[n] in mid;
      AlongFollow(was, w, ttl, now, o, mid[..n]);
      InvFollow(w, ttl, mid[..n]);
      AlongStep(was, Follow(w, ttl, mid[..n]), ttl, now, o, mid[n]);
    }
  }

  /** A sweep that has come to its end, whatever went on beside it, has done with each session that was listed and that
      nobody flipped meanwhile exactly what it should: closed it if unconnected past the TTL, evicted it if so or if
      connected and closed, and otherwise left it. */
  lemma SweepExactly(ttl: int, pre: seq<Event>, now: int, mid: seq<Event>, o: nat)
    requires Reach(ttl, pre).sweeper.Resting? && Reach(ttl, pre).t.Lists(o)
    requires Flips(Connect(o)) !in mid && Flips(Shut(o)) !in mid && End !in mid
    requires Reach(ttl, pre + [Begin(now)] + mid).sweeper == Walking(now, {}, None)
    ensures var t, t' := Reach(ttl, pre).t, Reach(ttl, pre + [Begin(now)] + mid).t;
            var s := t.made[o];
            && o < |t'.made|
            && (t'.Lists(o) <==> if s.connected then s.Open() else now - s.createdAt <= ttl)
            && (t'.made[o].Open() <==> s.Open() && (s.connected || now - s.createdAt <= ttl))
            && (t'.made[o].connected <==> s.connected)
  {
    OpenIsListedAlways(ttl, pre);
    FollowSnoc(START, ttl, pre, Begin(now));
    FollowMore(START, ttl, pre + [Begin(now)], mid);
    var w := Reach(ttl, pre + [Begin(now)]);
    OpenIsListedAlways(ttl, pre + [Begin(now)]);
    AlongFollow(Reach(ttl, pre).t, w, ttl, now, o, mid);
  }

  /** A session's birth is the time of the GetOrCreate that made it, for good. */
  lemma BornAt(ttl: int, before: seq<Event>, id: Id, born: int, after: seq<Event>) returns (o: nat)
    requires Reach(ttl, before).sweeper.Resting? && id !in Reach(ttl, before).t.entries
    ensures o == |Reach(ttl, before).t.made|
    ensures var t := Reach(ttl, before + [Lookup(id, born)]).t;
            t.Lists(o) && t.made[o] == Lease(id, born, false, false)
    ensures var made := Reach(ttl, before + [Lookup(id, born)] + after).t.made;
            o < |made| && made[o].id == id && made[o].createdAt == born
  {
    o := |Reach(ttl, before).t.made|;
    FollowSnoc(START, ttl, before, Lookup(id, born));
    FollowMore(START, ttl, before + [Lookup(id, born)], after);
    History(Reach(ttl, before + [Lookup(id, born)]), ttl, after, o);
  }

  /** So a session made at `born`, not connected, and flipped by nobody during a sweep that begins at `now`, is still
      listed when the sweep has come to its end if and only if now - born <= ttl, and is closed by it if not. */
  lemma TtlExactly(ttl: int, before: seq<Event>, id: Id, born: int, after: seq<Event>, now: int, mid: seq<Event>, o: nat)
    requires Reach(ttl, before).sweeper.Resting? && id !in Reach(ttl, before).t.entries
    requires o == |Reach(ttl, before).t.made|
    requires var w := Reach(ttl, before + [Lookup(id, born)] + after);
             w.sweeper.Resting? && w.t.Lists(o) && !w.t.made[o].connected
    requires Flips(Connect(o)) !in mid && Flips(Shut(o)) !in mid && End !in mid
    requires Reach(ttl, before + [Lookup(id, born)] + after + [Begin(now)] + mid).sweeper == Walking(now, {}, None)
    ensures var t, t' := Reach(ttl, before + [Lookup(id, born)] + after).t,
                         Reach(ttl, before + [Lookup(id, born)] + after + [Begin(now)] + mid).t;
            && o < |t'.made|
            && (t'.Lists(o) <==> now - born <= ttl)
            && (!t'.made[o].closed <==> !t.made[o].closed && now - born <= ttl)
  {
    var p := BornAt(ttl, before, id, born, after);
    SweepExactly(ttl, before + [Lookup(id, born)] + after, now, mid, o);
  }

  // ---- The sweep as the code runs it ----

  function AllFlipped(t: Table, fs: seq<Flip>): Table {
    if fs == [] then t else Flipped(AllFlipped(t, fs[..|fs| - 1]), fs[|fs| - 1])
  }

  lemma FlippedSnoc(t: Table, fs: seq<Flip>, k: nat)
    requires k < |fs|
    ensures AllFlipped(t, fs[..k + 1]) == Flipped(AllFlipped(t, fs[..k]), fs[k])
  {
    assert fs[..k + 1][..k] == fs[..k];
  }

  /** One turn of the loop, with the flips before its select and between that and what follows. */
  datatype Visit = Visit(id: Id, first: seq<Flip>, between: seq<Flip>)

  function AfterVisit(t: Table, ttl: int, now: int, v: Visit): Table {
    var t1 := AllFlipped(t, v.first);
    if !t1.Listed(v.id) then t1
    else Acted(AllFlipped(t1, v.between), ttl, now, Sight(v.id, t1.made[t1.entries[v.id]].connected))
  }

  function SweptVia(t: Table, ttl: int, now: int, vs: seq<Visit>): Table {
    if vs == [] then t else AfterVisit(SweptVia(t, ttl, now, vs[..|vs| - 1]), ttl, now, vs[|vs| - 1])
  }

  function FlipEvents(fs: seq<Flip>): (es: seq<Event>)
    ensures |es| == |fs| && forall i :: 0 <= i < |fs| ==> es[i] == Flips(fs[i])
  {
    seq(|fs|, i requires 0 <= i < |fs| => Flips(fs[i]))
  }

  function VisitEvents(v: Visit): seq<Event> {
    FlipEvents(v.first) + [See(v.id)] + FlipEvents(v.between) + [Act]
  }

  function SweepEvents(now: int, vs: seq<Visit>): seq<Event> {
    if vs == [] then [Begin(now)] else SweepEvents(now, vs[..|vs| - 1]) + VisitEvents(vs[|vs| - 1])
  }

  lemma {:induction false} FlipsFollow(w: World, ttl: int, fs: seq<Flip>)
    ensures Follow(w, ttl, FlipEvents(fs)) == w.(t := AllFlipped(w.t, fs))
    ensures AllFlipped(w.t, fs).entries == w.t.entries && |AllFlipped(w.t, fs).made| == |w.t.made|
  {
    if fs != [] {
      var n := |fs| - 1;
      FlipsFollow(w, ttl, fs[..n]);
      assert FlipEvents(fs) == FlipEvents(fs[..n]) + [Flips(fs[n])];
      FollowSnoc(w, ttl, FlipEvents(fs[..n]), Flips(fs[n]));
    }
  }

  lemma VisitFollows(w: World, ttl: int, v: Visit)
    requires w.sweeper.Walking? && w.sweeper.at.None? && v.id in w.sweeper.todo && w.t.Listed(v.id)
    ensures Follow(w, ttl, VisitEvents(v))
            == World(AfterVisit(w.t, ttl, w.sweeper.now, v), w.sweeper.(todo := w.sweeper.todo - {v.id}))
  {
    FlipsFollow(w, ttl, v.first);
    FollowSnoc(w, ttl, FlipEvents(v.first), See(v.id));
    var w1 := Happen(Follow(w, ttl, FlipEvents(v.first)), ttl, See(v.id));
    FlipsFollow(w1, ttl, v.between);
    FollowMore(w, ttl, FlipEvents(v.first) + [See(v.id)], FlipEvents(v.between));
    FollowSnoc(w, ttl, FlipEvents(v.first) + [See(v.id)] + FlipEvents(v.between), Act);
  }

  function Ids(vs: seq<Visit>): set<Id> {
    set v | v in vs :: v.id
  }

  ghost predicate Distinct(vs: seq<Visit>) {
    forall i, j :: 0 <= i < j < |vs| ==> vs[i].id != vs[j].id
  }

  lemma VisitKeepsOthers(t: Table, ttl: int, now: int, v: Visit, id: Id)
    requires t.Listed(id) && id != v.id
    ensures AfterVisit(t, ttl, now, v).Listed(id)
  {
    FlipsFollow(World(t, Resting), ttl, v.first);
    FlipsFollow(World(AllFlipped(t, v.first), Resting), ttl, v.between);
  }

  lemma IdsSnoc(vs: seq<Visit>)
    requires vs != [] && Distinct(vs)
    ensures var n := |vs| - 1;
            Distinct(vs[..n]) && vs[n].id !in Ids(vs[..n]) && Ids(vs) == Ids(vs[..n]) + {vs[n].id}
  {
    var front := vs[..|vs| - 1];
    assert vs == front + [vs[|vs| - 1]];
    assert forall x :: x in front ==> x in vs;
  }

  /** What is still to be visited is still listed. */
  lemma {:induction false} RestListed(t: Table, ttl: int, now: int, vs: seq<Visit>, id: Id)
    requires t.Listed(id) && id !in Ids(vs)
    ensures SweptVia(t, ttl, now, vs).Listed(id)
  {
    if vs != [] {
      var n := |vs| - 1;
      assert vs[n] in vs && vs[n].id in Ids(vs);
      assert forall x :: x in vs[..n] ==> x in vs;
      RestListed(t, ttl, now, vs[..n], id);
      VisitKeepsOthers(SweptVia(t, ttl, now, vs[..n]), ttl, now, vs[n], id);
    }
  }

  /** The walk so far is a run of the events. */
  lemma {:induction false} SweepFollows(t: Table, ttl: int, now: int, vs: seq<Visit>)
    requires (forall id :: id in t.entries ==> t.Listed(id)) && Distinct(vs) && Ids(vs) <= t.entries.Keys
    ensures Follow(World(t, Resting), ttl, SweepEvents(now, vs))
            == World(SweptVia(t, ttl, now, vs), Walking(now, t.entries.Keys - Ids(vs), None))
  {
    var w := World(t, Resting);
    if vs == [] {
      FollowSnoc(w, ttl, [], Begin(now));
      assert [] + [Begin(now)] == [Begin(now)];
      assert t.entries.Keys - Ids(vs) == t.entries.Keys;
    } else {
      var front, v := vs[..|vs| - 1], vs[|vs| - 1];
      IdsSnoc(vs);
      SweepFollows(t, ttl, now, front);
      FollowMore(w, ttl, SweepEvents(now, front), VisitEvents(v));
      RestListed(t, ttl, now, front, v.id);
      VisitFollows(World(SweptVia(t, ttl, now, front), Walking(now, t.entries.Keys - Ids(front), None)), ttl, v);
      assert t.entries.Keys - Ids(vs) == (t.entries.Keys - Ids(front)) - {v.id};
    }
  }

  lemma SweptSnoc(t: Table, ttl: int, now: int, vs: seq<Visit>, k: nat)
    requires k < |vs|
    ensures SweptVia(t, ttl, now, vs[..k + 1]) == AfterVisit(SweptVia(t, ttl, now, vs[..k]), ttl, now, vs[k])
  {
    assert vs[..k + 1][..k] == vs[..k];
  }

  lemma StillListed(t: Table, ttl: int, now: int, vs: seq<Visit>, k: nat)
    requires k < |vs| && t.Coherent() && Distinct(vs) && Ids(vs) == t.entries.Keys
    ensures vs[k].id in SweptVia(t, ttl, now, vs[..k]).entries
  {
    var front := vs[..k];
    assert vs[k] in vs && vs[k].id in Ids(vs);
    assert vs[k].id !in Ids(front);
    RestListed(t, ttl, now, front, vs[k].id);
  }

  ghost predicate Untouched(fs: seq<Flip>, o: nat) {
    forall f :: f in fs ==> f.o != o
  }

  lemma {:induction false} FlipsKeep(t: Table, fs: seq<Flip>, o: nat)
    requires o < |t.made| && Untouched(fs, o)
    ensures var t' := AllFlipped(t, fs);
            t'.entries == t.entries && |t'.made| == |t.made| && t'.made[o] == t.made[o]
  {
    if fs != [] {
      assert fs[|fs| - 1] in fs;
      FlipsKeep(t, fs[..|fs| - 1], o);
    }
  }

  /** A visit to a session that nobody flips in it, and to any other. */
  lemma VisitUntouched(t: Table, ttl: int, now: int, v: Visit, o: nat)
    requires t.Coherent() && t.Lists(o) && Untouched(v.first, o) && Untouched(v.between, o)
    ensures var t', s := AfterVisit(t, ttl, now, v), t.made[o];
            && |t'.made| == |t.made|
            && if v.id != s.id then t'.Lists(o) && t'.made[o] == s
               else
                 && t'.made[o] == s.(closed := s.closed || (!s.connected && now - s.createdAt > ttl))
                 && (s.id in t'.entries <==> if s.connected then !s.closed else now - s.createdAt <= ttl)
                 && (s.id in t'.entries ==> t'.entries[s.id] == o)
  {
    FlipsKeep(t, v.first, o);
    FlipsKeep(AllFlipped(t, v.first), v.between, o);
    CoherentFlips(t, v.first);
    CoherentFlips(AllFlipped(t, v.first), v.between);
  }

  lemma {:induction false} CoherentFlips(t: Table, fs: seq<Flip>)
    requires t.Coherent()
    ensures AllFlipped(t, fs).Coherent()
  {
    if fs != [] {
      CoherentFlips(t, fs[..|fs| - 1]);
    }
  }

  /** A visit to one identifier leaves another's session where it is, gone or not. */
  lemma VisitElsewhere(t: Table, ttl: int, now: int, v: Visit, o: nat)
    requires t.Coherent() && o < |t.made| && v.id != t.made[o].id && Untouched(v.first, o) && Untouched(v.between, o)
    ensures var t', id := AfterVisit(t, ttl, now, v), t.made[o].id;
            && t'.Coherent() && |t'.made| == |t.made| && t'.made[o] == t.made[o]
            && (id in t'.entries <==> id in t.entries) && (id in t.entries ==> t'.entries[id] == t.entries[id])
  {
    FlipsKeep(t, v.first, o);
    FlipsKeep(AllFlipped(t, v.first), v.between, o);
    CoherentFlips(t, v.first);
    CoherentFlips(AllFlipped(t, v.first), v.between);
  }

  lemma VisitCoherent(t: Table, ttl: int, now: int, v: Visit)
    requires t.Coherent()
    ensures AfterVisit(t, ttl, now, v).Coherent()
  {
    CoherentFlips(t, v.first);
    CoherentFlips(AllFlipped(t, v.first), v.between);
  }

  /** What the loop does with a listed session that nobody flips in it. */
  lemma {:induction false} LoopExactly(t: Table, ttl: int, now: int, vs: seq<Visit>, o: nat)
    requires t.Coherent() && t.Lists(o) && Distinct(vs)
    requires forall v :: v in vs ==> Untouched(v.first, o) && Untouched(v.between, o)
    ensures var t', s := SweptVia(t, ttl, now, vs), t.made[o];
            && t'.Coherent() && |t'.made| == |t.made|
            && if s.id !in Ids(vs) then t'.Lists(o) && t'.made[o] == s
               else
                 && t'.made[o] == s.(closed := s.closed || (!s.connected && now - s.createdAt > ttl))
                 && (s.id in t'.entries <==> if s.connected then !s.closed else now - s.createdAt <= ttl)
                 && (s.id in t'.entries ==> t'.entries[s.id] == o)
  {
    if vs != [] {
      var front, v := vs[..|vs| - 1], vs[|vs| - 1];
      assert v in vs && forall x :: x in front ==> x in vs;
      IdsSnoc(vs);
      LoopExactly(t, ttl, now, front, o);
      var was := SweptVia(t, ttl, now, front);
      VisitCoherent(was, ttl, now, v);
      if v.id == t.made[o].id {
        VisitUntouched(was, ttl, now, v, o);
      } else {
        VisitElsewhere(was, ttl, now, v, o);
      }
    }
  }

  /** The loop over all the map, in any order and with any flips, is a run of the events. */
  lemma SweepIsARun(t: Table, ttl: int, now: int, vs: seq<Visit>)
    requires t.Coherent() && Distinct(vs) && Ids(vs) == t.entries.Keys
    ensures Follow(World(t, Resting), ttl, SweepEvents(now, vs) + [End]) == World(SweptVia(t, ttl, now, vs), Resting)
  {
    SweepFollows(t, ttl, now, vs);
    FollowSnoc(World(t, Resting), ttl, SweepEvents(now, vs), End);
  }

  // ---- The objects ----

  /** The part of a session's state that decides its lifetime. */
  class ListedSession {
    const id: Id
    const createdAt: int
    var connected: bool
    var closed: bool
    ghost const serial: nat  // its place among all sessions ever made

    constructor (id: Id, now: int, ghost serial: nat)
      ensures View() == Lease(id, now, false, false) && this.serial == serial
    {
      this.id := id;
      this.createdAt := now;
      this.serial := serial;
      connected := false;
      closed := false;
    }

    ghost function View(): Lease
      reads this
    {
      Lease(id, createdAt, connected, closed)
    }

    method MarkConnected()
      modifies this`connected
      ensures View() == old(View()).(connected := true)
    {
      connected := true;
    }

    method Close()
      modifies this`closed
      ensures View() == old(View()).(closed := true)
    {
      closed := true;
    }
  }

  ghost function Leases(made: seq<ListedSession>): (r: seq<Lease>)
    reads made
    ensures |r| == |made| && forall o :: 0 <= o < |made| ==> r[o] == made[o].View()
  {
    if made == [] then [] else Leases(made[..|made| - 1]) + [made[|made| - 1].View()]
  }

  lemma LeasesAfter(made: seq<ListedSession>, was: seq<Lease>, o: nat)
    requires o < |made| == |was|
    requires forall k: nat :: k < |made| && k != o ==> made[k].View() == was[k]
    ensures Leases(made) == was[o := made[o].View()]
  {
  }

  lemma LeasesMore(made: seq<ListedSession>, was: seq<Lease>, s: ListedSession)
    requires Leases(made) == was
    ensures Leases(made + [s]) == was + [s.View()]
  {
  }

  ghost function Serials(sessions: map<Id, ListedSession>): map<Id, nat> {
    map id | id in sessions :: sessions[id].serial
  }

  lemma SerialsWith(sessions: map<Id, ListedSession>, id: Id, s: ListedSession)
    ensures Serials(sessions[id := s]) == Serials(sessions)[id := s.serial]
  {
  }

  lemma SerialsWithout(sessions: map<Id, ListedSession>, id: Id)
    ensures Serials(sessions - {id}) == Serials(sessions) - {id}
  {
  }

  /** A flip of a particular object. */
  datatype Touch = Marks(s: ListedSession) | Closes(s: ListedSession)

  ghost function FlipOf(t: Touch): Flip {
    match t
    case Marks(s) => Connect(s.serial)
    case Closes(s) => Shut(s.serial)
  }

  ghost function FlipsOf(ts: seq<Touch>): (fs: seq<Flip>)
    ensures |fs| == |ts| && forall i :: 0 <= i < |ts| ==> fs[i] == FlipOf(ts[i])
  {
    if ts == [] then [] else FlipsOf(ts[..|ts| - 1]) + [FlipOf(ts[|ts| - 1])]
  }

  datatype Turn = Turn(id: Id, first: seq<Touch>, between: seq<Touch>)

  ghost function VisitOf(t: Turn): Visit {
    Visit(t.id, FlipsOf(t.first), FlipsOf(t.between))
  }

  ghost function VisitsOf(ts: seq<Turn>): (vs: seq<Visit>)
    ensures |vs| == |ts| && forall i :: 0 <= i < |ts| ==> vs[i] == VisitOf(ts[i])
  {
    if ts == [] then [] else VisitsOf(ts[..|ts| - 1]) + [VisitOf(ts[|ts| - 1])]
  }

  /** Nobody sets this session's flags during the sweep. */
  ghost predicate LeftAlone(turns: seq<Turn>, o: nat) {
    forall t :: t in turns ==> (forall x :: x in t.first ==> x.s.serial != o) && (forall x :: x in t.between ==> x.s.serial != o)
  }

  lemma AloneIsUntouched(turns: seq<Turn>, o: nat)
    requires LeftAlone(turns, o)
    ensures forall v :: v in VisitsOf(turns) ==> Untouched(v.first, o) && Untouched(v.between, o)
  {
    var vs := VisitsOf(turns);
    forall v | v in vs ensures Untouched(v.first, o) && Untouched(v.between, o) {
      var i :| 0 <= i < |vs| && vs[i] == v;
      assert turns[i] in turns && v == VisitOf(turns[i]);
      TouchesElsewhere(turns[i].first, o);
      TouchesElsewhere(turns[i].between, o);
    }
  }

  lemma TouchesElsewhere(ts: seq<Touch>, o: nat)
    requires forall x :: x in ts ==> x.s.serial != o
    ensures Untouched(FlipsOf(ts), o)
  {
    var fs := FlipsOf(ts);
    forall f | f in fs ensures f.o != o {
      var i :| 0 <= i < |fs| && fs[i] == f;
      assert ts[i] in ts;
    }
  }

  /** What a sweep leaves of a listed session with this lease that nobody flipped. */
  ghost predicate SettledIn(t: Table, ttl: int, now: int, o: nat, s: Lease) {
    && o < |t.made|
    && t.made[o] == s.(closed := s.closed || (!s.connected && now - s.createdAt > ttl))
    && (s.id in t.entries <==> if s.connected then !s.closed else now - s.createdAt <= ttl)
    && (s.id in t.entries ==> t.entries[s.id] == o)
  }

  lemma SweptTable(was: Table, ttl: int, now: int, turns: seq<Turn>, o: nat)
    requires was.Coherent() && was.Lists(o) && LeftAlone(turns, o)
    requires Distinct(VisitsOf(turns)) && Ids(VisitsOf(turns)) == was.entries.Keys
    ensures SettledIn(SweptVia(was, ttl, now, VisitsOf(turns)), ttl, now, o, was.made[o])
  {
    AloneIsUntouched(turns, o);
    LoopExactly(was, ttl, now, VisitsOf(turns), o);
  }

  class Manager {
    const ttl: int
    var sessions: map<Id, ListedSession>
    ghost var made: seq<ListedSession>

    ghost predicate Holds(id: Id, s: ListedSession)
      reads this
    {
      s.id == id && Made(s)
    }

    ghost predicate Made(s: ListedSession)
      reads this`made
    {
      s.serial < |made| && made[s.serial] == s
    }

    ghost predicate Valid()
      reads this
    {
      && (forall o :: 0 <= o < |made| ==> made[o].serial == o)
      && (forall id :: id in sessions ==> Holds(id, sessions[id]))
    }

    ghost function View(): Table
      reads this, made
    {
      Table(Leases(made), Serials(sessions))
    }

    constructor (ttl: int)
      ensures Valid() && this.ttl == ttl && View() == EMPTY
    {
      this.ttl := ttl;
      sessions := map[];
      made := [];
    }

    lemma ViewCoherent()
      requires Valid()
      ensures View().Coherent() && View().entries.Keys == sessions.Keys
    {
    }

    method Add(s: ListedSession)
      requires Valid() && s.serial == |made|
      modifies this`sessions, this`made
      ensures Valid() && made == old(made) + [s] && sessions == old(sessions)[s.id := s]
      ensures View() == Table(old(View()).made + [s.View()], old(View()).entries[s.id := s.serial])
    {
      LeasesMore(made, Leases(made), s);
      SerialsWith(sessions, s.id, s);
      sessions := sessions[s.id := s];
      made := made + [s];
    }

    method GetOrCreate(id: Id, now: int) returns (s: ListedSession)
      requires Valid()
      modifies this`sessions, this`made
      ensures Valid() && View() == Looked(old(View()), id, now)
      ensures Made(s) && View().entries[id] == s.serial
      ensures sessions == old(sessions)[id := s]
      ensures if id in old(sessions) then s == old(sessions)[id]
              else fresh(s) && s.id == id && s.createdAt == now && !s.connected && !s.closed
    {
      if id in sessions {
        return sessions[id];
      }
      s := new ListedSession(id, now, |made|);
      Add(s);
    }

    method Get(id: Id) returns (found: bool, s: ListedSession?)
      requires Valid()
      ensures found == (id in View().entries) && (found == (s != null))
      ensures s != null ==> s.serial == View().entries[id]
    {
      if id in sessions {
        return true, sessions[id];
      }
      return false, null;
    }

    method CloseAndDelete(id: Id)
      requires Valid() && id in sessions
      modifies this`sessions, made
      ensures Valid() && View() == Dropped(old(View()), id)
      ensures sessions == old(sessions) - {id} && old(sessions)[id].closed
    {
      var s := sessions[id];
      ghost var was := Leases(made);
      assert was[s.serial] == s.View();
      s.Close();
      LeasesAfter(made, was, s.serial);
      sessions := sessions - {id};
      SerialsWithout(old(sessions), id);
    }

    method Remove(id: Id)
      requires Valid()
      modifies this`sessions, made
      ensures Valid() && View() == Dropped(old(View()), id)
      ensures sessions == old(sessions) - {id}
      ensures id in old(sessions) ==> old(sessions)[id].closed
    {
      if id in sessions {
        CloseAndDelete(id);
      }
    }

    // ---- The sweep ----

    /** Another goroutine sets a flag. */
    method TouchOne(t: Touch)
      requires Valid() && Made(t.s)
      modifies made
      ensures Valid() && View() == Flipped(old(View()), FlipOf(t))
    {
      ghost var was := Leases(made);
      assert was[t.s.serial] == t.s.View();
      match t {
        case Marks(s) => s.MarkConnected();
        case Closes(s) => s.Close();
      }
      LeasesAfter(made, was, t.s.serial);
    }

    method Touches(ts: seq<Touch>)
      requires Valid() && forall t :: t in ts ==> Made(t.s)
      modifies made
      ensures Valid() && View() == AllFlipped(old(View()), FlipsOf(ts))
    {
      ghost var was, fs := View(), FlipsOf(ts);
      for k := 0 to |ts|
        invariant Valid() && View() == AllFlipped(was, fs[..k])
      {
        FlippedSnoc(was, fs, k);
        TouchOne(ts[k]);
      }
      assert fs[..|fs|] == fs;
    }

    /** What follows the select. A connected session it evicts is closed already. */
    method ActOn(id: Id, now: int, sawConnected: bool)
      requires Valid() && id in sessions
      modifies this`sessions, made
      ensures Valid() && View() == Acted(old(View()), ttl, now, Sight(id, sawConnected))
    {
      var s := sessions[id];
      assert Leases(made)[s.serial] == s.View();
      if sawConnected {
        if s.closed {
          sessions := sessions - {id};
          SerialsWithout(old(sessions), id);
        }
      } else if now - s.createdAt > ttl {
        CloseAndDelete(id);
      }
    }

    /** The select. */
    method SawConnected(id: Id) returns (seen: bool)
      requires Valid() && id in sessions
      ensures View().Listed(id) && seen == View().made[View().entries[id]].connected
    {
      var s := sessions[id];
      assert Leases(made)[s.serial] == s.View();
      return s.connected;
    }

    ghost predicate Known(t: Turn)
      reads this`made
    {
      (forall x :: x in t.first ==> Made(x.s)) && (forall x :: x in t.between ==> Made(x.s))
    }

    /** Up to the moment the select's branch goes on. */
    method Look(t: Turn) returns (seen: bool)
      requires Valid() && t.id in sessions && Known(t)
      modifies made
      ensures Valid()
      ensures var t1 := AllFlipped(old(View()), FlipsOf(t.first));
              && t1.Listed(t.id) && seen == t1.made[t1.entries[t.id]].connected
              && View() == AllFlipped(t1, FlipsOf(t.between))
    {
      Touches(t.first);
      seen := SawConnected(t.id);
      Touches(t.between);
    }

    /** The loop's body. */
    method VisitOne(now: int, t: Turn)
      requires Valid() && t.id in sessions && Known(t)
      modifies this`sessions, made
      ensures Valid() && View() == AfterVisit(old(View()), ttl, now, VisitOf(t))
    {
      var seen := Look(t);
      ActOn(t.id, now, seen);
    }

    /** The k-th turn leads from the k-th table to the next. */
    ghost predicate Leads(now: int, turns: seq<Turn>, path: seq<Table>, k: nat)
      reads this`made
      requires k < |turns| && |path| == |turns| + 1
    {
      && Known(turns[k]) && turns[k].id in path[k].entries
      && path[k + 1] == AfterVisit(path[k], ttl, now, VisitOf(turns[k]))
    }

    method VisitNext(now: int, turns: seq<Turn>, ghost path: seq<Table>, k: nat)
      requires Valid() && k < |turns| && |path| == |turns| + 1 && View() == path[k] && Leads(now, turns, path, k)
      modifies this`sessions, made
      ensures Valid() && View() == path[k + 1]
    {
      VisitOne(now, turns[k]);
    }

    method VisitAll(now: int, turns: seq<Turn>, ghost path: seq<Table>)
      requires Valid() && |path| == |turns| + 1 && View() == path[0]
      requires forall k: nat :: k < |turns| ==> Leads(now, turns, path, k)
      modifies this`sessions, made
      ensures Valid() && View() == path[|turns|]
    {
      for k := 0 to |turns|
        invariant Valid() && made == old(made) && View() == path[k]
      {
        VisitNext(now, turns, path, k);
      }
    }

    /** One tick of cleanupLoop, in whatever order the map is walked, and with whatever flags are set meanwhile. What it
        means for each object is said by SweepSettles. */
    method SweepOnce(now: int, turns: seq<Turn>)
      requires Valid() && (forall t :: t in turns ==> Known(t))
      requires Distinct(VisitsOf(turns)) && Ids(VisitsOf(turns)) == sessions.Keys
      modifies this`sessions, made
      ensures Valid() && View() == SweptVia(old(View()), ttl, now, VisitsOf(turns))
    {
      ViewCoherent();
      ghost var path := Path(View(), now, turns);
      VisitAll(now, turns, path);
    }

    /** After a sweep of a table that listed this object with this lease: what has become of it, if nobody flipped it. */
    lemma SweepSettles(was: Table, now: int, turns: seq<Turn>, s: ListedSession, lease: Lease)
      requires Valid() && View() == SweptVia(was, ttl, now, VisitsOf(turns)) && Made(s)
      requires was.Coherent() && Distinct(VisitsOf(turns)) && Ids(VisitsOf(turns)) == was.entries.Keys
      requires was.Lists(s.serial) && was.made[s.serial] == lease && lease.createdAt == s.createdAt
      requires LeftAlone(turns, s.serial)
      ensures Settled(now, lease.id, s, lease.connected, lease.closed)
    {
      SweptTable(was, ttl, now, turns, s.serial);
      Settles(now, lease.id, s, lease.connected, lease.closed);
    }

    lemma ListedLease(id: Id)
      requires Valid()
      ensures View().Coherent() && View().entries.Keys == sessions.Keys
      ensures id in sessions ==>
                var s := sessions[id];
                View().Lists(s.serial) && View().made[s.serial] == Lease(id, s.createdAt, s.connected, s.closed)
    {
      ViewCoherent();
    }

    /** The sweep's work on one session: evicted if it was connected and closed, or past the TTL unconnected; and in
        the latter case closed. */
    ghost predicate Settled(now: int, id: Id, s: ListedSession, wasConnected: bool, wasClosed: bool)
      reads this, s
    {
      && (id in sessions <==> if wasConnected then !wasClosed else now - s.createdAt <= ttl)
      && (id in sessions ==> sessions[id] == s)
      && s.connected == wasConnected
      && s.closed == (wasClosed || (!wasConnected && now - s.createdAt > ttl))
    }

    lemma Settles(now: int, id: Id, s: ListedSession, wasConnected: bool, wasClosed: bool)
      requires Valid() && Made(s)
      requires SettledIn(View(), ttl, now, s.serial, Lease(id, s.createdAt, wasConnected, wasClosed))
      ensures Settled(now, id, s, wasConnected, wasClosed)
    {
      assert Leases(made)[s.serial] == s.View();
    }

    lemma Path(was: Table, now: int, turns: seq<Turn>) returns (path: seq<Table>)
      requires was.Coherent() && (forall t :: t in turns ==> Known(t))
      requires Distinct(VisitsOf(turns)) && Ids(VisitsOf(turns)) == was.entries.Keys
      ensures |path| == |turns| + 1 && path[0] == was && path[|turns|] == SweptVia(was, ttl, now, VisitsOf(turns))
      ensures forall k: nat :: k < |turns| ==> Leads(now, turns, path, k)
    {
      var vs := VisitsOf(turns);
      path := seq(|turns| + 1, i requires 0 <= i <= |turns| => SweptVia(was, ttl, now, vs[..i]));
      assert vs[..|turns|] == vs;
      forall k: nat | k < |turns| ensures Leads(now, turns, path, k) {
        SweptSnoc(was, ttl, now, vs, k);
        StillListed(was, ttl, now, vs, k);
      }
    }
  }
}
