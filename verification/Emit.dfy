/** internal/transport/xhttp/server.go: tryEmit under concurrent POST and GET handlers of many sessions.
    Sessions are numbered by object. Steps are the single atomic operations. */
module Emit {
  import opened Common

  const ACCEPT_BACKLOG: nat := 64

  datatype Kind = Get | Post

  /** Where a handler is. */
  datatype Stage =
    | Arrived   // has its session
    | Noted     // has set HasDownload (GET) or HasUpload (POST) and called tryEmit
    | Saw       // found HasDownload set
    | Won       // won the compare-and-swap of Accepted; the send is next
    | Passed    // back from tryEmit

  datatype Handler = Handler(sess: nat, kind: Kind, stage: Stage)

  /** The flags as sets of sessions, the accept channel, and what became of the sends. */
  datatype State = State(handlers: seq<Handler>, hasDownload: set<nat>, accepted: set<nat>,
                         queue: seq<nat>, taken: seq<nat>, dropped: seq<nat>)

  datatype Step = Arrive(sess: nat, kind: Kind) | Note(i: nat) | Load(i: nat) | Swap(i: nat) | Send(i: nat) | Accept

  const IDLE := State([], {}, {}, [], [], [])

  predicate At(s: State, i: nat, stage: Stage) {
    i < |s.handlers| && s.handlers[i].stage == stage
  }

  function Moved(s: State, i: nat, stage: Stage): State
    requires i < |s.handlers|
  {
    s.(handlers := s.handlers[i := s.handlers[i].(stage := stage)])
  }

  /** A step that cannot be taken changes nothing. */
  function Apply(s: State, e: Step): State {
    match e
    case Arrive(sess, kind) => s.(handlers := s.handlers + [Handler(sess, kind, Arrived)])
    case Note(i) =>
      if !At(s, i, Arrived) then s
      else
        var h := s.handlers[i];
        Moved(s, i, Noted).(hasDownload := s.hasDownload + if h.kind == Get then {h.sess} else {})
    case Load(i) =>
      if !At(s, i, Noted) then s
      else Moved(s, i, if s.handlers[i].sess in s.hasDownload then Saw else Passed)
    case Swap(i) =>
      if !At(s, i, Saw) then s
      else
        var h := s.handlers[i];
        if h.sess in s.accepted then Moved(s, i, Passed)
        else Moved(s, i, Won).(accepted := s.accepted + {h.sess})
    case Send(i) =>
      if !At(s, i, Won) then s
      else
        var sess := s.handlers[i].sess;
        if |s.queue| < ACCEPT_BACKLOG then Moved(s, i, Passed).(queue := s.queue + [sess])
        else Moved(s, i, Passed).(dropped := s.dropped + [sess])
    case Accept =>
      if s.queue == [] then s else s.(taken := s.taken + [s.queue[0]], queue := s.queue[1..])
  }

  function Reach(steps: seq<Step>): State {
    if steps == [] then IDLE else Apply(Reach(steps[..|steps| - 1]), steps[|steps| - 1])
  }

  /** How many of xs are of this session, or of any. */
  function Tally(xs: seq<nat>, who: Option<nat>): nat {
    match who
    case None => |xs|
    case Some(sess) => multiset(xs)[sess]
  }

  lemma TallySnoc(xs: seq<nat>, x: nat, who: Option<nat>)
    ensures Tally(xs + [x], who) == Tally(xs, who) + Tally([x], who)
  {
  }

  lemma TallyCons(xs: seq<nat>, who: Option<nat>)
    requires xs != []
    ensures Tally(xs, who) == Tally([xs[0]], who) + Tally(xs[1..], who)
  {
    assert xs == [xs[0]] + xs[1..];
  }

  /** Every send ever made, whatever became of it. */
  function Offers(s: State, who: Option<nat>): nat {
    Tally(s.taken, who) + Tally(s.queue, who) + Tally(s.dropped, who)
  }

  function Flags(accepted: set<nat>, who: Option<nat>): nat {
    match who
    case None => |accepted|
    case Some(sess) => if sess in accepted then 1 else 0
  }

  function Sender(h: Handler, who: Option<nat>): nat {
    if h.stage == Won then Tally([h.sess], who) else 0
  }

  /** The sends still to come: handlers between the compare-and-swap and the send. */
  function Senders(handlers: seq<Handler>, who: Option<nat>): nat {
    if handlers == [] then 0
    else Senders(handlers[..|handlers| - 1], who) + Sender(handlers[|handlers| - 1], who)
  }

  lemma {:induction false} SendersAfter(handlers: seq<Handler>, i: nat, h: Handler, who: Option<nat>)
    requires i < |handlers|
    ensures Senders(handlers[i := h], who) == Senders(handlers, who) - Sender(handlers[i], who) + Sender(h, who)
  {
    var n := |handlers| - 1;
    if i == n {
      assert handlers[i := h][..n] == handlers[..n];
    } else {
      assert handlers[i := h][..n] == handlers[..n][i := h];
      SendersAfter(handlers[..n], i, h, who);
    }
  }

  lemma {:induction false} SenderExists(handlers: seq<Handler>, sess: nat)
    ensures Senders(handlers, Some(sess)) > 0 <==> exists h :: h in handlers && h.sess == sess && h.stage == Won
  {
    if handlers != [] {
      var n := |handlers| - 1;
      SenderExists(handlers[..n], sess);
      assert handlers == handlers[..n] + [handlers[n]];
    }
  }

  /** Each session with its Accepted flag set has been offered once or has one handler about to offer it. */
  predicate Conserved(s: State, who: Option<nat>) {
    Flags(s.accepted, who) == Offers(s, who) + Senders(s.handlers, who)
  }

  /** A GET of this session has set HasDownload. */
  ghost predicate GetNoted(handlers: seq<Handler>, sess: nat) {
    exists i :: 0 <= i < |handlers| && handlers[i].sess == sess && handlers[i].kind == Get && handlers[i].stage != Arrived
  }

  ghost predicate Flagged(s: State) {
    && s.accepted <= s.hasDownload
    && (forall sess :: sess in s.hasDownload <==> GetNoted(s.handlers, sess))
    && (forall h <- s.handlers :: h.stage in {Saw, Won} ==> h.sess in s.hasDownload)
    && (forall h <- s.handlers :: h.stage == Won || (h.kind == Get && h.stage == Passed) ==> h.sess in s.accepted)
  }

  predicate Bounded(s: State) {
    && |s.queue| <= ACCEPT_BACKLOG
    && (s.dropped != [] ==> |s.taken| + |s.queue| + |s.dropped| > ACCEPT_BACKLOG)
  }

  lemma AcceptConserves(s: State, who: Option<nat>)
    requires Conserved(s, who) && s.queue != []
    ensures Conserved(Apply(s, Accept), who)
  {
    TallySnoc(s.taken, s.queue[0], who);
    TallyCons(s.queue, who);
  }

  lemma SendConserves(s: State, i: nat, who: Option<nat>)
    requires Conserved(s, who) && At(s, i, Won)
    ensures Conserved(Apply(s, Send(i)), who)
  {
    var s' := Apply(s, Send(i));
    SendersAfter(s.handlers, i, s'.handlers[i], who);
    if |s.queue| < ACCEPT_BACKLOG {
      TallySnoc(s.queue, s.handlers[i].sess, who);
    } else {
      TallySnoc(s.dropped, s.handlers[i].sess, who);
    }
  }

  lemma SwapConserves(s: State, i: nat, who: Option<nat>)
    requires Conserved(s, who) && At(s, i, Saw)
    ensures Conserved(Apply(s, Swap(i)), who)
  {
    var s' := Apply(s, Swap(i));
    SendersAfter(s.handlers, i, s'.handlers[i], who);
  }

  lemma ConservedStep(s: State, e: Step, who: Option<nat>)
    requires Conserved(s, who)
    ensures Conserved(Apply(s, e), who)
  {
    var s' := Apply(s, e);
    match e
    case Arrive(_, _) => assert s'.handlers[..|s.handlers|] == s.handlers;
    case Note(i) => if At(s, i, Arrived) { SendersAfter(s.handlers, i, s'.handlers[i], who); }
    case Load(i) => if At(s, i, Noted) { SendersAfter(s.handlers, i, s'.handlers[i], who); }
    case Swap(i) => if At(s, i, Saw) { SwapConserves(s, i, who); }
    case Send(i) => if At(s, i, Won) { SendConserves(s, i, who); }
    case Accept => if s.queue != [] { AcceptConserves(s, who); }
  }

  lemma NotedAfter(handlers: seq<Handler>, i: nat, stage: Stage, sess: nat)
    requires i < |handlers| && stage != Arrived
    ensures GetNoted(handlers[i := handlers[i].(stage := stage)], sess)
            <==> GetNoted(handlers, sess) || (handlers[i].sess == sess && handlers[i].kind == Get)
  {
    var after := handlers[i := handlers[i].(stage := stage)];
    if GetNoted(handlers, sess) {
      var k :| 0 <= k < |handlers| && handlers[k].sess == sess && handlers[k].kind == Get && handlers[k].stage != Arrived;
      assert after[k].sess == sess && after[k].kind == Get && after[k].stage != Arrived;
    }
    assert after[i].stage != Arrived;
  }

  lemma NotedAfterArrival(handlers: seq<Handler>, h: Handler, sess: nat)
    requires h.stage == Arrived
    ensures GetNoted(handlers + [h], sess) <==> GetNoted(handlers, sess)
  {
    if GetNoted(handlers, sess) {
      var k :| 0 <= k < |handlers| && handlers[k].sess == sess && handlers[k].kind == Get && handlers[k].stage != Arrived;
      assert (handlers + [h])[k] == handlers[k];
    }
  }

  lemma FlaggedStep(s: State, e: Step)
    requires Flagged(s)
    ensures Flagged(Apply(s, e))
  {
    var s' := Apply(s, e);
    if s' != s && !e.Accept? {
      forall sess ensures sess in s'.hasDownload <==> GetNoted(s'.handlers, sess) {
        if e.Arrive? {
          NotedAfterArrival(s.handlers, Handler(e.sess, e.kind, Arrived), sess);
        } else {
          NotedAfter(s.handlers, e.i, s'.handlers[e.i].stage, sess);
        }
      }
    }
  }

  lemma BoundedStep(s: State, e: Step)
    requires Bounded(s)
    ensures Bounded(Apply(s, e))
  {
  }

  lemma {:induction false} InvReach(steps: seq<Step>, who: Option<nat>)
    ensures Conserved(Reach(steps), who) && Flagged(Reach(steps)) && Bounded(Reach(steps))
  {
    if steps != [] {
      var n := |steps| - 1;
      var s := Reach(steps[..n]);
      InvReach(steps[..n], who);
      ConservedStep(s, steps[n], who);
      FlaggedStep(s, steps[n]);
      BoundedStep(s, steps[n]);
    }
  }

  /** A session is offered at most once, by one handler, and only after a GET of it registered. */
  lemma OfferedOnce(steps: seq<Step>, sess: nat)
    ensures var s := Reach(steps);
            && Offers(s, Some(sess)) + Senders(s.handlers, Some(sess)) == (if sess in s.accepted then 1 else 0)
            && (Offers(s, Some(sess)) > 0 ==> GetNoted(s.handlers, sess))
  {
    InvReach(steps, Some(sess));
  }

  /** Sessions emitted are queued, taken or dropped, or about to be sent; the queue never exceeds its 64 places, and
      nothing is dropped before more than 64 have been offered. */
  lemma EmitConserves(steps: seq<Step>)
    ensures var s := Reach(steps);
            && |s.accepted| == |s.queue| + |s.taken| + |s.dropped| + Senders(s.handlers, None)
            && |s.queue| <= 64
            && (|s.queue| + |s.taken| + |s.dropped| <= 64 ==> s.dropped == [])
  {
    InvReach(steps, None);
  }

  /** Once a GET is past tryEmit its session is offered exactly unless another handler, which won the swap, has yet
      to send; that handler's own next step is the offer. */
  lemma OfferedByFirstGetExactly(steps: seq<Step>, i: nat)
    requires At(Reach(steps), i, Passed) && Reach(steps).handlers[i].kind == Get
    ensures var s := Reach(steps);
            var sess := s.handlers[i].sess;
            Offers(s, Some(sess)) == 1 <==> forall h <- s.handlers :: !(h.sess == sess && h.stage == Won)
  {
    var s := Reach(steps);
    var sess := s.handlers[i].sess;
    InvReach(steps, Some(sess));
    SenderExists(s.handlers, sess);
    assert s.handlers[i] in s.handlers;
  }

  lemma {:induction false} Follow(steps: seq<Step>, k: nat)
    requires k < |steps|
    ensures Reach(steps[..k + 1]) == Apply(Reach(steps[..k]), steps[k])
  {
    assert steps[..k + 1][..k] == steps[..k];
  }

  /** A POST wins the swap, and the GET passes before the POST has sent. */
  function Overtaken(): seq<Step> {
    [Arrive(7, Get), Arrive(7, Post), Note(0), Note(1), Load(1), Swap(1), Load(0), Swap(0)]
  }

  lemma BothNoted()
    ensures Reach(Overtaken()[..4]) == State([Handler(7, Get, Noted), Handler(7, Post, Noted)], {7}, {}, [], [], [])
  {
    var run := Overtaken();
    Follow(run, 0);
    Follow(run, 1);
    assert Reach(run[..2]) == State([Handler(7, Get, Arrived), Handler(7, Post, Arrived)], {}, {}, [], [], []);
    Follow(run, 2);
    Follow(run, 3);
  }

  lemma PostWins()
    ensures Reach(Overtaken()[..6]) == State([Handler(7, Get, Noted), Handler(7, Post, Won)], {7}, {7}, [], [], [])
  {
    var run := Overtaken();
    BothNoted();
    Follow(run, 4);
    assert Reach(run[..5]) == State([Handler(7, Get, Noted), Handler(7, Post, Saw)], {7}, {}, [], [], []);
    Follow(run, 5);
  }

  /** So a GET can be past tryEmit with its session not offered yet. */
  lemma GetPassesBeforeTheOffer()
    ensures var s := Reach(Overtaken());
            At(s, 0, Passed) && s.handlers[0].kind == Get && Offers(s, Some(s.handlers[0].sess)) == 0
  {
    var run := Overtaken();
    PostWins();
    Follow(run, 6);
    Follow(run, 7);
    assert run[..8] == run;
  }

  /** When every handler is past tryEmit, the sessions offered, once each, are exactly those with a GET. */
  lemma SettledExactly(steps: seq<Step>, sess: nat)
    requires forall h <- Reach(steps).handlers :: h.stage == Passed
    ensures var s := Reach(steps);
            && Offers(s, Some(sess)) <= 1
            && (Offers(s, Some(sess)) == 1 <==> exists h :: h in s.handlers && h.sess == sess && h.kind == Get)
  {
    var s := Reach(steps);
    InvReach(steps, Some(sess));
    SenderExists(s.handlers, sess);
    if GetNoted(s.handlers, sess) {
      var i :| 0 <= i < |s.handlers| && s.handlers[i].sess == sess && s.handlers[i].kind == Get;
      assert s.handlers[i] in s.handlers;
    }
  }

  /** Accept hands out the session that has been queued longest. */
  lemma AcceptTakesOldest(s: State)
    requires s.queue != []
    ensures var s' := Apply(s, Accept); s'.taken == s.taken + [s.queue[0]] && [s.queue[0]] + s'.queue == s.queue
  {
  }

  /** A handler alone gets through tryEmit in its own four steps: a GET of a session not accepted yet offers it, and
      any other offers nothing. */
  lemma HandlerGetsThrough(s: State, i: nat)
    requires At(s, i, Arrived)
    ensures var s' := Apply(Apply(Apply(Apply(s, Note(i)), Load(i)), Swap(i)), Send(i));
            var h := s.handlers[i];
            && At(s', i, Passed)
            && var offers := (h.kind == Get || h.sess in s.hasDownload) && h.sess !in s.accepted;
               && s'.accepted == s.accepted + (if offers then {h.sess} else {})
               && s'.queue == s.queue + (if offers && |s.queue| < 64 then [h.sess] else [])
               && s'.dropped == s.dropped + (if offers && |s.queue| >= 64 then [h.sess] else [])
  {
  }

  /** A session dropped on a full queue is lost for good: no later run queues it or hands it out. */
  lemma DroppedForGood(steps: seq<Step>, more: seq<Step>, sess: nat)
    requires sess in Reach(steps).dropped
    ensures var s := Reach(steps + more);
            sess in s.dropped && sess !in s.queue && sess !in s.taken
  {
    StaysDropped(steps, more, sess);
    OfferedOnce(steps + more, sess);
    var s := Reach(steps + more);
    assert sess in multiset(s.dropped);
    assert sess !in multiset(s.queue) && sess !in multiset(s.taken);
  }

  lemma {:induction false} StaysDropped(steps: seq<Step>, more: seq<Step>, sess: nat)
    requires sess in Reach(steps).dropped
    ensures sess in Reach(steps + more).dropped
  {
    if more == [] {
      assert steps + more == steps;
    } else {
      var n := |more| - 1;
      StaysDropped(steps, more[..n], sess);
      assert (steps + more)[..|steps| + n] == steps + more[..n];
    }
  }
}
