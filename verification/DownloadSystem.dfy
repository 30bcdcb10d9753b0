/** The download direction as a system of atomic steps: the session's buffer, any number of GET handlers, a network
    that loses responses, and one client that reads and reconnects. (server.go handleDownload, client.go Read.) */
module DownloadSystem {
  import opened Common
  import opened DownloadBuffers

  const COPY_BUFFER: nat := 32768

  /** Where a GET handler stands between two atomic regions. */
  datatype Phase =
    | Reading
    | Sending(chunk: Bytes, next: nat)  // read from the buffer, not yet written to the response
    | Flushed                           // written to the response, Advance not yet called
    | Waiting                           // in the select on Notify
    | Exited

  /** `body` is what this handler's response has carried so far. */
  datatype Handler = Handler(start: nat, offset: nat, body: Bytes, phase: Phase)

  /** The response the client is reading, and how many of its bytes it has taken. */
  datatype Body = Body(handler: nat, consumed: nat)

  /** `offset` is clientConn.downloadOffset; `returned` is everything its Read has handed out. */
  datatype System = System(log: Log, handlers: seq<Handler>, offset: nat, attached: Option<Body>, returned: Bytes)

  datatype Step =
    | ServerWrite(p: Bytes)
    | ServerClose
    | StrayGet(off: int)             // a GET whose response the client never reads: lost, late, or repeated
    | Connect                        // startDownload succeeds
    | HandlerRead(i: nat)
    | HandlerSend(i: nat)
    | HandlerSendFails(i: nat, k: nat)  // the write to the response breaks after k bytes
    | HandlerAdvance(i: nat)
    | HandlerWake(i: nat)
    | HandlerCancel(i: nat)
    | ClientRead(n: nat)
    | ClientDrop                     // the response ends or breaks; what was in flight is lost

  function Init(maxRetain: int): System {
    System(EmptyLog(maxRetain), [], 0, None, [])
  }

  function NewHandler(off: int): Handler {
    var start := if off > 0 then off else 0;
    Handler(start, start, [], Reading)
  }

  /** One handler's own move, given the log. */
  function MoveHandler(l: Log, h: Handler, e: Step): Handler {
    match e
    case HandlerRead(_) =>
      if h.phase != Reading then h
      else
        var r := ReadAt(l, h.offset, COPY_BUFFER);
        if |r.data| > 0 then h.(phase := Sending(r.data, r.off))
        else if r.err != NoError then h.(phase := Exited)
        else h.(phase := Waiting)
    case HandlerSend(_) =>
      if h.phase.Sending? then h.(body := h.body + h.phase.chunk, offset := h.phase.next, phase := Flushed) else h
    case HandlerSendFails(_, k) =>
      if h.phase.Sending? then h.(body := h.body + h.phase.chunk[..Min(k, |h.phase.chunk|)], phase := Exited) else h
    case HandlerAdvance(_) => if h.phase == Flushed then h.(phase := Reading) else h
    case HandlerWake(_) => if h.phase == Waiting && l.token then h.(phase := Reading) else h
    case HandlerCancel(_) => if h.phase == Waiting then h.(phase := Exited) else h
    case _ => h
  }

  /** What that move does to the log: Advance raises the watermark, waking takes the token. */
  function MoveLog(l: Log, h: Handler, e: Step): Log {
    if e.HandlerAdvance? && h.phase == Flushed then Advanced(l, h.offset)
    else if e.HandlerWake? && h.phase == Waiting && l.token then l.(token := false)
    else l
  }

  /** One atomic step; a step that is not enabled changes nothing. */
  function Apply(s: System, e: Step): System {
    match e
    case ServerWrite(p) => s.(log := Appended(s.log, p))
    case ServerClose => s.(log := Finished(s.log))
    case StrayGet(off) => s.(handlers := s.handlers + [NewHandler(off)])
    case Connect =>
      if s.attached.Some? then s
      else s.(handlers := s.handlers + [NewHandler(s.offset)], attached := Some(Body(|s.handlers|, 0)))
    case ClientRead(n) =>
      if s.attached.None? || s.attached.value.handler >= |s.handlers| then s
      else
        var b := s.attached.value;
        var body := s.handlers[b.handler].body;
        if b.consumed > |body| then s
        else
          var m := Min(n, |body| - b.consumed);
          s.(offset := s.offset + m,
             returned := s.returned + body[b.consumed..b.consumed + m],
             attached := Some(Body(b.handler, b.consumed + m)))
    case ClientDrop => s.(attached := None)
    case _ =>
      if e.i >= |s.handlers| then s
      else
        var h := s.handlers[e.i];
        s.(handlers := s.handlers[e.i := MoveHandler(s.log, h, e)], log := MoveLog(s.log, h, e))
  }

  predicate IsHandlerStep(e: Step) {
    e.HandlerRead? || e.HandlerSend? || e.HandlerSendFails? || e.HandlerAdvance? || e.HandlerWake? || e.HandlerCancel?
  }

  function Reach(steps: seq<Step>, maxRetain: int): System {
    if steps == [] then Init(maxRetain)
    else Apply(Reach(steps[..|steps| - 1], maxRetain), steps[|steps| - 1])
  }

  /** What the world does to the session: a write is appended and wakes unless it is closed, a GET adds a handler at the
      offset it asks for or at 0, a dropped response leaves everything but the client's hold on it. */
  lemma WorldMoves(s: System, p: Bytes, off: int)
    ensures var w := Apply(s, ServerWrite(p));
            w == if s.log.done then s else s.(log := s.log.(bytes := s.log.bytes + p, token := true))
    ensures Apply(s, ServerClose) == s.(log := s.log.(done := true, token := true))
    ensures var start: nat := if off < 0 then 0 else off;
            Apply(s, StrayGet(off)) == s.(handlers := s.handlers + [Handler(start, start, [], Reading)])
    ensures s.attached.None? ==>
              Apply(s, Connect) == s.(handlers := s.handlers + [Handler(s.offset, s.offset, [], Reading)],
                                      attached := Some(Body(|s.handlers|, 0)))
    ensures Apply(s, ClientDrop) == s.(attached := None)
  {
  }

  /** The same from any state on. */
  function Follow(s: System, steps: seq<Step>): System {
    if steps == [] then s else Apply(Follow(s, steps[..|steps| - 1]), steps[|steps| - 1])
  }

  lemma {:induction false} ReachMore(steps: seq<Step>, more: seq<Step>, maxRetain: int)
    ensures Reach(steps + more, maxRetain) == Follow(Reach(steps, maxRetain), more)
  {
    if more == [] {
      assert steps + more == steps;
    } else {
      var n := |more| - 1;
      assert (steps + more)[..|steps| + n] == steps + more[..n];
      ReachMore(steps, more[..n], maxRetain);
    }
  }

  lemma {:induction false} FollowMore(s: System, steps: seq<Step>, more: seq<Step>)
    ensures Follow(s, steps + more) == Follow(Follow(s, steps), more)
  {
    if more == [] {
      assert steps + more == steps;
    } else {
      var n := |more| - 1;
      assert (steps + more)[..|steps| + n] == steps + more[..n];
      FollowMore(s, steps, more[..n]);
    }
  }

  // ---- Safety ----

  /** A handler's response is a stretch of the log starting where its GET asked. */
  ghost predicate HandlerOk(bytes: Bytes, h: Handler) {
    && Carries(bytes, h.start, h.body)
    && (h.phase.Exited? || h.offset == h.start + |h.body|)
    && (h.phase.Sending? ==> h.offset <= h.phase.next <= |bytes| && h.phase.chunk == bytes[h.offset..h.phase.next])
    && (h.phase.Flushed? ==> h.offset <= |bytes|)
  }

  ghost predicate ClientOk(s: System) {
    && s.offset <= |s.log.bytes|
    && s.returned == s.log.bytes[..s.offset]
    && (s.attached.Some? ==>
          var b := s.attached.value;
          && b.handler < |s.handlers|
          && s.handlers[b.handler].start + b.consumed == s.offset
          && b.consumed <= |s.handlers[b.handler].body|)
  }

  ghost predicate Inv(s: System) {
    && s.log.Sane()
    && (forall i :: 0 <= i < |s.handlers| ==> HandlerOk(s.log.bytes, s.handlers[i]))
    && ClientOk(s)
  }

  lemma HandlerOkGrows(bytes: Bytes, more: Bytes, h: Handler)
    requires HandlerOk(bytes, h)
    ensures HandlerOk(bytes + more, h)
  {
    CarriesGrows(bytes, bytes + more, h.start, h.body);
  }

  lemma HandlerStep(l: Log, h: Handler, e: Step)
    requires l.Sane() && HandlerOk(l.bytes, h)
    ensures var h' := MoveHandler(l, h, e);
            HandlerOk(l.bytes, h') && h'.start == h.start && h.body <= h'.body && h.offset <= h'.offset
    ensures var l' := MoveLog(l, h, e);
            l'.Sane() && l'.bytes == l.bytes && l'.maxRetain == l.maxRetain && l'.done == l.done
  {
    if h.phase.Sending? {
      var chunk := h.phase.chunk;
      assert chunk[..|chunk|] == chunk;
      if e.HandlerSend? {
        CarriesMore(l.bytes, h.start, h.body, chunk, |chunk|);
      } else if e.HandlerSendFails? {
        CarriesMore(l.bytes, h.start, h.body, chunk, Min(e.k, |chunk|));
      }
    }
  }

  /** Taking the next m bytes of a response that carries the log. */
  lemma ClientTakes(log: Bytes, start: nat, body: Bytes, consumed: nat, m: nat)
    requires Carries(log, start, body) && consumed + m <= |body| && start + consumed <= |log|
    ensures start + consumed + m <= |log|
    ensures log[..start + consumed] + body[consumed..consumed + m] == log[..start + consumed + m]
  {
    var at := start + consumed;
    if m > 0 {
      SliceOfSlice(log, start, start + |body|, consumed, consumed + m);
      assert log[..at] + log[at..at + m] == log[..at + m];
    }
  }

  lemma InvWrite(s: System, p: Bytes)
    requires Inv(s)
    ensures Inv(Apply(s, ServerWrite(p)))
  {
    var s' := Apply(s, ServerWrite(p));
    if !s.log.done {
      forall i | 0 <= i < |s'.handlers| ensures HandlerOk(s'.log.bytes, s'.handlers[i]) {
        HandlerOkGrows(s.log.bytes, p, s.handlers[i]);
      }
      assert s'.log.bytes[..s.offset] == s.log.bytes[..s.offset];
    }
  }

  lemma InvClientRead(s: System, n: nat)
    requires Inv(s)
    ensures Inv(Apply(s, ClientRead(n)))
  {
    if s.attached.Some? {
      var b := s.attached.value;
      var h := s.handlers[b.handler];
      ClientTakes(s.log.bytes, h.start, h.body, b.consumed, Min(n, |h.body| - b.consumed));
    }
  }

  lemma InvHandler(s: System, e: Step)
    requires Inv(s) && IsHandlerStep(e)
    ensures Inv(Apply(s, e))
  {
    if e.i < |s.handlers| {
      HandlerStep(s.log, s.handlers[e.i], e);
    }
  }

  lemma InvStep(s: System, e: Step)
    requires Inv(s)
    ensures Inv(Apply(s, e))
  {
    if e.ServerWrite? {
      InvWrite(s, e.p);
    } else if e.ClientRead? {
      InvClientRead(s, e.n);
    } else if IsHandlerStep(e) {
      InvHandler(s, e);
    }
  }

  lemma {:induction false} InvReach(steps: seq<Step>, maxRetain: int)
    ensures Inv(Reach(steps, maxRetain))
  {
    if steps != [] {
      InvReach(steps[..|steps| - 1], maxRetain);
      InvStep(Reach(steps[..|steps| - 1], maxRetain), steps[|steps| - 1]);
    }
  }

  lemma {:induction false} InvFollow(s: System, steps: seq<Step>)
    requires Inv(s)
    ensures Inv(Follow(s, steps))
  {
    if steps != [] {
      InvFollow(s, steps[..|steps| - 1]);
      InvStep(Follow(s, steps[..|steps| - 1]), steps[|steps| - 1]);
    }
  }

  /** Zero loss, zero duplicates: in every run the client has read exactly the first `offset` bytes ever written. */
  lemma DownloadSafety(steps: seq<Step>, maxRetain: int)
    ensures var s := Reach(steps, maxRetain);
            s.offset <= |s.log.bytes| && s.returned == s.log.bytes[..s.offset]
  {
    InvReach(steps, maxRetain);
  }

  // ---- Resumability ----

  /** The watermark is some handler's doing, so it never passes the furthest handler. */
  ghost predicate WatermarkOwned(s: System) {
    s.log.delivered == 0 || exists i :: 0 <= i < |s.handlers| && s.log.delivered <= s.handlers[i].offset
  }

  lemma {:induction false} WatermarkReach(steps: seq<Step>, maxRetain: int)
    ensures var s := Reach(steps, maxRetain);
            WatermarkOwned(s) && s.log.maxRetain == EmptyLog(maxRetain).maxRetain
  {
    if steps != [] {
      var front, e := steps[..|steps| - 1], steps[|steps| - 1];
      WatermarkReach(front, maxRetain);
      InvReach(front, maxRetain);
      var s, s' := Reach(front, maxRetain), Reach(steps, maxRetain);
      if IsHandlerStep(e) && e.i < |s.handlers| {
        HandlerStep(s.log, s.handlers[e.i], e);
        if s'.log.delivered != s.log.delivered {
          assert s'.log.delivered <= s'.handlers[e.i].offset;
        }
      }
      if s.log.delivered != 0 && s'.log.delivered == s.log.delivered {
        var i :| 0 <= i < |s.handlers| && s.log.delivered <= s.handlers[i].offset;
        assert s'.log.delivered <= s'.handlers[i].offset;
      }
    }
  }

  /** A handler counts only up to the end of the log: one that was asked to start beyond it has nothing to Advance. */
  ghost predicate TrailsByWindow(s: System) {
    forall i :: 0 <= i < |s.handlers| ==> Min(s.handlers[i].offset, |s.log.bytes|) <= s.offset + s.log.maxRetain
  }

  ghost predicate Resumes(s: System, room: nat) {
    var r := ReadAt(s.log, s.offset, room);
    && r.err != OffsetTooOld
    && s.offset + |r.data| <= |s.log.bytes|
    && s.returned + r.data == s.log.bytes[..s.offset + |r.data|]
  }

  lemma ResumesFrom(s: System, room: nat)
    requires Inv(s) && WatermarkOwned(s) && TrailsByWindow(s)
    ensures Resumes(s, room)
  {
    var r := ReadAt(s.log, s.offset, room);
    if s.offset < |s.log.bytes| {
      assert r.data == s.log.bytes[s.offset..s.offset + |r.data|];
    }
  }

  /** A client that trails every handler by at most the replay window can always resume, and gets the next bytes. */
  lemma ReconnectResumes(steps: seq<Step>, maxRetain: int, room: nat)
    requires TrailsByWindow(Reach(steps, maxRetain))
    ensures Resumes(Reach(steps, maxRetain), room)
  {
    InvReach(steps, maxRetain);
    WatermarkReach(steps, maxRetain);
    ResumesFrom(Reach(steps, maxRetain), room);
  }

  // ---- Wakeups ----

  /** How many handlers sit in their select. */
  function Waiters(handlers: seq<Handler>): nat {
    if handlers == [] then 0 else (if handlers[0].phase.Waiting? then 1 else 0) + Waiters(handlers[1..])
  }

  /** No handler sleeps in its select while there is something for it and the channel is empty. */
  ghost predicate NoLostWakeup(s: System) {
    forall i :: 0 <= i < |s.handlers| ==>
      (s.handlers[i].phase.Waiting? && (s.handlers[i].offset < |s.log.bytes| || s.log.done) ==> s.log.token)
  }

  /** At every moment of the run at most n GET handlers wait. Any number may be alive. */
  ghost predicate AtMostWaiting(steps: seq<Step>, maxRetain: int, n: nat) {
    forall k :: 0 <= k <= |steps| ==> Waiters(Reach(steps[..k], maxRetain).handlers) <= n
  }

  ghost predicate NeverLosesWakeup(n: nat, maxRetain: int) {
    forall steps :: AtMostWaiting(steps, maxRetain, n) ==> NoLostWakeup(Reach(steps, maxRetain))
  }

  lemma {:induction false} OneWaits(handlers: seq<Handler>, i: nat)
    requires i < |handlers| && handlers[i].phase.Waiting?
    ensures Waiters(handlers) >= 1
  {
    if i > 0 {
      OneWaits(handlers[1..], i - 1);
    }
  }

  lemma {:induction false} TwoWait(handlers: seq<Handler>, i: nat, j: nat)
    requires i < j < |handlers| && handlers[i].phase.Waiting? && handlers[j].phase.Waiting?
    ensures Waiters(handlers) >= 2
  {
    if i == 0 {
      OneWaits(handlers[1..], j - 1);
    } else {
      TwoWait(handlers[1..], i - 1, j - 1);
    }
  }

  lemma WaitsAlone(handlers: seq<Handler>, i: nat, j: nat)
    requires Waiters(handlers) <= 1 && i < |handlers| && j < |handlers| && i != j && handlers[i].phase.Waiting?
    ensures !handlers[j].phase.Waiting?
  {
    if handlers[j].phase.Waiting? {
      if i < j {
        TwoWait(handlers, i, j);
      } else {
        TwoWait(handlers, j, i);
      }
    }
  }

  /** Only waking takes the token, and the one that wakes was the only one waiting. */
  lemma WakeTakes(s: System, i: nat)
    requires NoLostWakeup(s) && Waiters(s.handlers) <= 1
    ensures NoLostWakeup(Apply(s, HandlerWake(i)))
  {
    if i < |s.handlers| && s.handlers[i].phase.Waiting? {
      forall j | 0 <= j < |s.handlers| && j != i ensures !s.handlers[j].phase.Waiting? {
        WaitsAlone(s.handlers, i, j);
      }
    }
  }

  /** A handler that goes to sleep has just seen nothing to do, and no other move takes the token. */
  lemma WakeKeeps(l: Log, h: Handler, e: Step)
    requires l.Sane() && HandlerOk(l.bytes, h) && IsHandlerStep(e) && !e.HandlerWake?
    ensures var l', h' := MoveLog(l, h, e), MoveHandler(l, h, e);
            && l'.token == l.token && l'.bytes == l.bytes && l'.done == l.done
            && (h'.phase.Waiting? ==> (h.phase.Waiting? && h'.offset == h.offset) || (h'.offset >= |l.bytes| && !l.done))
  {
    HandlerStep(l, h, e);
  }

  lemma WakeStep(s: System, e: Step)
    requires Inv(s) && NoLostWakeup(s) && Waiters(s.handlers) <= 1
    ensures NoLostWakeup(Apply(s, e))
  {
    if e.HandlerWake? {
      WakeTakes(s, e.i);
    } else if IsHandlerStep(e) && e.i < |s.handlers| {
      WakeKeeps(s.log, s.handlers[e.i], e);
    }
  }

  lemma {:induction false} WakeReach(steps: seq<Step>, maxRetain: int)
    requires AtMostWaiting(steps, maxRetain, 1)
    ensures NoLostWakeup(Reach(steps, maxRetain))
  {
    if steps != [] {
      var n := |steps| - 1;
      var front := steps[..n];
      forall k | 0 <= k <= n ensures Waiters(Reach(front[..k], maxRetain).handlers) <= 1 {
        assert front[..k] == steps[..k];
      }
      WakeReach(front, maxRetain);
      InvReach(front, maxRetain);
      assert steps[..n] == front;
      WakeStep(Reach(front, maxRetain), steps[n]);
    }
  }

  /** The one token of Notify is enough exactly for one waiting handler. */
  lemma NoLostWakeupExactly(n: nat, maxRetain: int)
    ensures NeverLosesWakeup(n, maxRetain) <==> n <= 1
  {
    if n <= 1 {
      forall steps | AtMostWaiting(steps, maxRetain, n) ensures NoLostWakeup(Reach(steps, maxRetain)) {
        forall k | 0 <= k <= |steps| ensures Waiters(Reach(steps[..k], maxRetain).handlers) <= 1 {
        }
        WakeReach(steps, maxRetain);
      }
    } else {
      StolenToken(maxRetain);
      assert AtMostWaiting(StolenTokenRun(), maxRetain, n);
    }
  }

  /** A replaced handler that has not noticed it is dead takes the token meant for its successor. */
  function StolenTokenRun(): seq<Step> {
    [Connect, HandlerRead(0), ClientDrop, Connect, HandlerRead(1), ServerWrite([7]), HandlerWake(0)]
  }

  lemma FollowTo(steps: seq<Step>, k: nat, maxRetain: int)
    requires k < |steps|
    ensures Reach(steps[..k + 1], maxRetain) == Apply(Reach(steps[..k], maxRetain), steps[k])
  {
    assert steps[..k + 1][..k] == steps[..k];
  }

  lemma FirstWaits(maxRetain: int)
    ensures Reach(StolenTokenRun()[..3], maxRetain)
            == System(EmptyLog(maxRetain), [Handler(0, 0, [], Waiting)], 0, None, [])
  {
    var run := StolenTokenRun();
    FollowTo(run, 0, maxRetain);
    assert Reach(run[..1], maxRetain) == System(EmptyLog(maxRetain), [NewHandler(0)], 0, Some(Body(0, 0)), []);
    FollowTo(run, 1, maxRetain);
    FollowTo(run, 2, maxRetain);
  }

  /** Both handlers wait, and the client reads the second. */
  lemma BothWait(maxRetain: int)
    ensures var waiting := Handler(0, 0, [], Waiting);
            Reach(StolenTokenRun()[..5], maxRetain)
            == System(EmptyLog(maxRetain), [waiting, waiting], 0, Some(Body(1, 0)), [])
  {
    var run, waiting := StolenTokenRun(), Handler(0, 0, [], Waiting);
    FirstWaits(maxRetain);
    FollowTo(run, 3, maxRetain);
    assert Reach(run[..4], maxRetain)
        == System(EmptyLog(maxRetain), [waiting, NewHandler(0)], 0, Some(Body(1, 0)), []);
    FollowTo(run, 4, maxRetain);
  }

  lemma StolenToken(maxRetain: int)
    ensures AtMostWaiting(StolenTokenRun(), maxRetain, 2)
    ensures !NoLostWakeup(Reach(StolenTokenRun(), maxRetain))
  {
    var run, waiting := StolenTokenRun(), Handler(0, 0, [], Waiting);
    BothWait(maxRetain);
    FollowTo(run, 5, maxRetain);
    FollowTo(run, 6, maxRetain);
    assert run[..7] == run;
    var s := Reach(run, maxRetain);
    assert s.log.bytes == [7] && !s.log.token && |s.handlers| == 2 && s.handlers[1] == waiting;
    forall k | 0 <= k <= |run| ensures Waiters(Reach(run[..k], maxRetain).handlers) <= 2 {
      HandlersGrow(run, k, maxRetain);
      WaitersBound(Reach(run[..k], maxRetain).handlers);
    }
  }

  lemma {:induction false} HandlersGrow(steps: seq<Step>, k: nat, maxRetain: int)
    requires k <= |steps|
    ensures |Reach(steps[..k], maxRetain).handlers| <= |Reach(steps, maxRetain).handlers|
  {
    if k == |steps| {
      assert steps[..k] == steps;
    } else {
      assert steps[..|steps| - 1][..k] == steps[..k];
      HandlersGrow(steps[..|steps| - 1], k, maxRetain);
    }
  }

  lemma {:induction false} WaitersBound(handlers: seq<Handler>)
    ensures Waiters(handlers) <= |handlers|
  {
    if handlers != [] {
      WaitersBound(handlers[1..]);
    }
  }

  /** Consequence: with one waiting handler at a time, a quiet system has delivered everything.
      If the client has taken all its handler sent, and that handler sleeps with no token, nothing is missing. */
  lemma QuietMeansDelivered(steps: seq<Step>, maxRetain: int)
    requires AtMostWaiting(steps, maxRetain, 1)
    requires var s := Reach(steps, maxRetain);
             && s.attached.Some? && !s.log.token
             && s.attached.value.handler < |s.handlers|
             && s.handlers[s.attached.value.handler].phase.Waiting?
             && s.attached.value.consumed == |s.handlers[s.attached.value.handler].body|
    ensures var s := Reach(steps, maxRetain);
            s.returned == s.log.bytes && !s.log.done
  {
    InvReach(steps, maxRetain);
    WakeReach(steps, maxRetain);
  }
}
