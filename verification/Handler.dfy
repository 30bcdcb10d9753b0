/** internal/transport/xhttp/server.go, handleDownload: the loop of one GET handler over the real buffer. */
module Handler {
  import opened Common
  import opened DownloadBuffers
  import D = DownloadSystem

  /** What happens in one turn of the loop. Other goroutines call the buffer before the select, between it and the
      read, while the response is written, and between that and the Advance. `takes` is how many bytes of its chunk
      the response takes (fewer than all is a write error); `cancelled` is whether the select picks the cancelled
      context. */
  datatype Turn = Turn(before: seq<Call>, woken: seq<Call>, amid: seq<Call>, late: seq<Call>,
                       takes: nat, cancelled: bool)

  function Calls(l: Log, cs: seq<Call>): Log {
    if cs == [] then l else Do(Calls(l, cs[..|cs| - 1]), cs[|cs| - 1])
  }

  /** The handler's moves are those of the download system, with their effect on the log. */
  function Move(l: Log, h: D.Handler, e: D.Step): (Log, D.Handler) {
    (D.MoveLog(l, h, e), D.MoveHandler(l, h, e))
  }

  function Select(l: Log, h: D.Handler, cancelled: bool): (Log, D.Handler) {
    Move(l, h, if cancelled then D.HandlerCancel(0) else D.HandlerWake(0))
  }

  /** Writing the chunk to the response and acknowledging it. */
  function Send(l: Log, h: D.Handler, late: seq<Call>, takes: nat): (Log, D.Handler) {
    if h.phase.Sending? && takes < |h.phase.chunk| then Move(l, h, D.HandlerSendFails(0, takes))
    else
      var (l1, h1) := Move(l, h, D.HandlerSend(0));
      Move(Calls(l1, late), h1, D.HandlerAdvance(0))
  }

  /** Read; then, if there was something, send. */
  function Pass(l: Log, h: D.Handler, amid: seq<Call>, late: seq<Call>, takes: nat): (Log, D.Handler) {
    var (l1, h1) := Move(l, h, D.HandlerRead(0));
    if h1.phase.Sending? then Send(Calls(l1, amid), h1, late, takes) else (l1, h1)
  }

  function AfterTurn(l: Log, h: D.Handler, t: Turn): (Log, D.Handler) {
    var (l1, h1) := Select(Calls(l, t.before), h, t.cancelled);
    if h1.phase.Reading? then Pass(Calls(l1, t.woken), h1, t.amid, t.late, t.takes) else (l1, h1)
  }

  /** The handler until it exits or the turns run out. */
  function Serve(l: Log, h: D.Handler, turns: seq<Turn>): (Log, D.Handler)
    decreases |turns|
  {
    if turns == [] || h.phase.Exited? then (l, h)
    else
      var (l', h') := AfterTurn(l, h, turns[0]);
      Serve(l', h', turns[1..])
  }

  /** The handler's own moves are single steps of the download system, which touch no other handler and not the
      client: here a whole pass, with nobody in between. */
  lemma PassIsThreeSteps(s: D.System, i: nat, takes: nat)
    requires i < |s.handlers| && s.handlers[i].phase.Reading?
    ensures var (l, h) := Pass(s.log, s.handlers[i], [], [], takes);
            exists send :: (send == D.HandlerSend(i) || send == D.HandlerSendFails(i, takes))
                           && D.Apply(D.Apply(D.Apply(s, D.HandlerRead(i)), send), D.HandlerAdvance(i))
                              == s.(log := l, handlers := s.handlers[i := h])
  {
    var s1 := D.Apply(s, D.HandlerRead(i));
    var h1 := s1.handlers[i];
    var send := if h1.phase.Sending? && takes < |h1.phase.chunk| then D.HandlerSendFails(i, takes) else D.HandlerSend(i);
    var s3 := D.Apply(D.Apply(s1, send), D.HandlerAdvance(i));
    assert s3.handlers == s.handlers[i := s3.handlers[i]];
  }

  // ---- Faithfulness ----

  ghost predicate Faithful(l: Log, h: D.Handler) {
    l.Sane() && D.HandlerOk(l.bytes, h)
  }

  /** Nobody acknowledges beyond d. */
  ghost predicate UpTo(cs: seq<Call>, d: int) {
    forall c :: c in cs && c.AdvanceCall? ==> c.off <= d
  }

  ghost predicate TurnUpTo(t: Turn, d: int) {
    UpTo(t.before, d) && UpTo(t.woken, d) && UpTo(t.amid, d) && UpTo(t.late, d)
  }

  /** The response has only grown; and if the others acknowledge no more than d, nothing is acknowledged beyond d
      and what this response has carried. */
  ghost predicate Onward(l: Log, h: D.Handler, l': Log, h': D.Handler, d: int) {
    && l.bytes <= l'.bytes && l'.maxRetain == l.maxRetain
    && h'.start == h.start && h.body <= h'.body && h.offset <= h'.offset
    && (l.delivered <= Max(d, h.offset) ==> l'.delivered <= Max(d, h'.offset))
  }

  lemma OnwardTrans(l: Log, h: D.Handler, l1: Log, h1: D.Handler, l2: Log, h2: D.Handler, d: int)
    requires Onward(l, h, l1, h1, d) && Onward(l1, h1, l2, h2, d)
    ensures Onward(l, h, l2, h2, d)
  {
  }

  lemma {:induction false} CallsKeep(l: Log, cs: seq<Call>, d: int)
    requires l.Sane() && UpTo(cs, d)
    ensures var l' := Calls(l, cs);
            l'.Sane() && l.bytes <= l'.bytes && l'.maxRetain == l.maxRetain
            && l.delivered <= l'.delivered <= Max(l.delivered, d)
  {
    if cs != [] {
      CallsKeep(l, cs[..|cs| - 1], d);
      assert cs[|cs| - 1] in cs;
    }
  }

  lemma CallsAreFaithful(l: Log, h: D.Handler, cs: seq<Call>, d: int)
    requires Faithful(l, h) && UpTo(cs, d)
    ensures Faithful(Calls(l, cs), h) && Onward(l, h, Calls(l, cs), h, d)
  {
    CallsKeep(l, cs, d);
    var bytes := Calls(l, cs).bytes;
    assert bytes == l.bytes + bytes[|l.bytes|..];
    D.HandlerOkGrows(l.bytes, bytes[|l.bytes|..], h);
  }

  lemma MoveIsFaithful(l: Log, h: D.Handler, e: D.Step, d: int)
    requires Faithful(l, h)
    ensures var (l', h') := Move(l, h, e); Faithful(l', h') && Onward(l, h, l', h', d)
  {
    D.HandlerStep(l, h, e);
  }

  lemma SendIsFaithful(l: Log, h: D.Handler, late: seq<Call>, takes: nat, d: int)
    requires Faithful(l, h) && UpTo(late, d)
    ensures var (l', h') := Send(l, h, late, takes); Faithful(l', h') && Onward(l, h, l', h', d)
  {
    if h.phase.Sending? && takes < |h.phase.chunk| {
      MoveIsFaithful(l, h, D.HandlerSendFails(0, takes), d);
    } else {
      var (l1, h1) := Move(l, h, D.HandlerSend(0));
      var l2 := Calls(l1, late);
      var (l3, h3) := Move(l2, h1, D.HandlerAdvance(0));
      MoveIsFaithful(l, h, D.HandlerSend(0), d);
      CallsAreFaithful(l1, h1, late, d);
      MoveIsFaithful(l2, h1, D.HandlerAdvance(0), d);
      OnwardTrans(l, h, l1, h1, l2, h1, d);
      OnwardTrans(l, h, l2, h1, l3, h3, d);
    }
  }

  lemma PassIsFaithful(l: Log, h: D.Handler, amid: seq<Call>, late: seq<Call>, takes: nat, d: int)
    requires Faithful(l, h) && UpTo(amid, d) && UpTo(late, d)
    ensures var (l', h') := Pass(l, h, amid, late, takes); Faithful(l', h') && Onward(l, h, l', h', d)
  {
    var (l1, h1) := Move(l, h, D.HandlerRead(0));
    MoveIsFaithful(l, h, D.HandlerRead(0), d);
    if h1.phase.Sending? {
      var l2 := Calls(l1, amid);
      var (l3, h3) := Send(l2, h1, late, takes);
      CallsAreFaithful(l1, h1, amid, d);
      SendIsFaithful(l2, h1, late, takes, d);
      OnwardTrans(l, h, l1, h1, l2, h1, d);
      OnwardTrans(l, h, l2, h1, l3, h3, d);
    }
  }

  lemma TurnIsFaithful(l: Log, h: D.Handler, t: Turn, d: int)
    requires Faithful(l, h) && TurnUpTo(t, d)
    ensures var (l', h') := AfterTurn(l, h, t); Faithful(l', h') && Onward(l, h, l', h', d)
  {
    var l0 := Calls(l, t.before);
    var choice := if t.cancelled then D.HandlerCancel(0) else D.HandlerWake(0);
    var (l1, h1) := Move(l0, h, choice);
    CallsAreFaithful(l, h, t.before, d);
    MoveIsFaithful(l0, h, choice, d);
    OnwardTrans(l, h, l0, h, l1, h1, d);
    if h1.phase.Reading? {
      var l2 := Calls(l1, t.woken);
      var (l3, h3) := Pass(l2, h1, t.amid, t.late, t.takes);
      CallsAreFaithful(l1, h1, t.woken, d);
      PassIsFaithful(l2, h1, t.amid, t.late, t.takes, d);
      OnwardTrans(l, h, l1, h1, l2, h1, d);
      OnwardTrans(l, h, l2, h1, l3, h3, d);
    }
  }

  /** Whatever happens, the response is the stretch of the log from the requested offset on; and apart from what the
      others acknowledge, no byte is acknowledged that it has not carried. */
  lemma {:induction false} ServeIsFaithful(l: Log, h: D.Handler, turns: seq<Turn>, d: int)
    requires Faithful(l, h) && forall t :: t in turns ==> TurnUpTo(t, d)
    ensures var (l', h') := Serve(l, h, turns); Faithful(l', h') && Onward(l, h, l', h', d)
    decreases |turns|
  {
    if turns != [] && !h.phase.Exited? {
      assert turns[0] in turns;
      TurnIsFaithful(l, h, turns[0], d);
      var (l1, h1) := AfterTurn(l, h, turns[0]);
      ServeIsFaithful(l1, h1, turns[1..], d);
      var (l2, h2) := Serve(l1, h1, turns[1..]);
      OnwardTrans(l, h, l1, h1, l2, h2, d);
    }
  }

  // ---- Progress ----

  ghost predicate CanServe(l: Log, h: D.Handler) {
    l.Sane() && h.phase.Reading? && l.Floor() <= h.offset <= |l.bytes|
  }

  lemma ReadSees(l: Log, h: D.Handler)
    requires CanServe(l, h) && h.offset < |l.bytes|
    ensures var k := h.offset + Min(D.COPY_BUFFER, |l.bytes| - h.offset);
            && D.MoveLog(l, h, D.HandlerRead(0)) == l
            && D.MoveHandler(l, h, D.HandlerRead(0)) == h.(phase := D.Sending(l.bytes[h.offset..k], k))
  {
  }

  lemma SendMoves(l: Log, h: D.Handler, late: seq<Call>, takes: nat)
    requires h.phase.Sending? && takes >= |h.phase.chunk|
    ensures Send(l, h, late, takes)
            == (Advanced(Calls(l, late), h.phase.next),
                D.Handler(h.start, h.phase.next, h.body + h.phase.chunk, D.Reading))
  {
  }

  lemma PassSends(l: Log, h: D.Handler, amid: seq<Call>, late: seq<Call>, takes: nat)
    requires CanServe(l, h) && h.offset < |l.bytes| && takes >= D.COPY_BUFFER
    ensures var k := h.offset + Min(D.COPY_BUFFER, |l.bytes| - h.offset);
            Pass(l, h, amid, late, takes)
            == (Advanced(Calls(Calls(l, amid), late), k),
                D.Handler(h.start, k, h.body + l.bytes[h.offset..k], D.Reading))
  {
    var k := h.offset + Min(D.COPY_BUFFER, |l.bytes| - h.offset);
    ReadSees(l, h);
    SendMoves(Calls(l, amid), h.(phase := D.Sending(l.bytes[h.offset..k], k)), late, takes);
  }

  lemma TurnPasses(l: Log, h: D.Handler, t: Turn)
    requires h.phase.Reading?
    ensures AfterTurn(l, h, t) == Pass(Calls(Calls(l, t.before), t.woken), h, t.amid, t.late, t.takes)
  {
  }

  lemma AllCallsKeep(l: Log, t: Turn, d: int)
    requires l.Sane() && TurnUpTo(t, d)
    ensures var l2 := Calls(Calls(l, t.before), t.woken);
            var l4 := Calls(Calls(l2, t.amid), t.late);
            && l2.Sane() && l4.Sane() && l2.bytes <= l4.bytes && l4.maxRetain == l2.maxRetain == l.maxRetain
            && l2.delivered <= Max(l.delivered, d) && l4.delivered <= Max(l.delivered, d)
  {
    CallsKeep(l, t.before, d);
    CallsKeep(Calls(l, t.before), t.woken, d);
    var l2 := Calls(Calls(l, t.before), t.woken);
    CallsKeep(l2, t.amid, d);
    CallsKeep(Calls(l2, t.amid), t.late, d);
  }

  /** What the buffer holds when the handler reads, and when it acknowledges. */
  function AtRead(l: Log, t: Turn): Log {
    Calls(Calls(l, t.before), t.woken)
  }

  function AtAdvance(l: Log, t: Turn): Log {
    Calls(Calls(AtRead(l, t), t.amid), t.late)
  }

  function Chunk(l: Log, h: D.Handler): (k: nat)
    requires h.offset < |l.bytes|
    ensures h.offset < k <= |l.bytes|
  {
    h.offset + Min(D.COPY_BUFFER, |l.bytes| - h.offset)
  }

  lemma StillServes(l: Log, h: D.Handler, t: Turn, k: nat, body: Bytes)
    requires CanServe(l, h) && TurnUpTo(t, h.offset + l.maxRetain)
    requires h.offset < k <= |AtRead(l, t).bytes|
    ensures CanServe(AtRead(l, t), h)
    ensures CanServe(Advanced(AtAdvance(l, t), k), D.Handler(h.start, k, body, D.Reading))
  {
    AllCallsKeep(l, t, h.offset + l.maxRetain);
  }

  /** In a turn with an unbroken response, unless the others acknowledge more than a replay window beyond it, a reading
      handler sends the next bytes there are, as many as its copy buffer holds, acknowledges them and can go on. */
  lemma TurnSends(l: Log, h: D.Handler, t: Turn)
    requires CanServe(l, h) && t.takes >= D.COPY_BUFFER && TurnUpTo(t, h.offset + l.maxRetain)
    requires h.offset < |AtRead(l, t).bytes|
    ensures var k := Chunk(AtRead(l, t), h);
            var l', h' := Advanced(AtAdvance(l, t), k),
                          D.Handler(h.start, k, h.body + AtRead(l, t).bytes[h.offset..k], D.Reading);
            AfterTurn(l, h, t) == (l', h') && k > h.offset && CanServe(l', h')
  {
    var k := Chunk(AtRead(l, t), h);
    StillServes(l, h, t, k, h.body + AtRead(l, t).bytes[h.offset..k]);
    TurnPasses(l, h, t);
    PassSends(AtRead(l, t), h, t.amid, t.late, t.takes);
  }

  // ---- Every turn, outright ----

  /** A read, from what the buffer holds: too old, nothing yet, the end, a response that breaks, or one that does not. */
  lemma PassExactly(l: Log, h: D.Handler, amid: seq<Call>, late: seq<Call>, takes: nat)
    requires l.Sane() && h.phase.Reading?
    ensures var end, (l', h') := |l.bytes|, Pass(l, h, amid, late, takes);
            && (h.offset < l.delivered - l.maxRetain ==> l' == l && h' == h.(phase := D.Exited))
            && (h.offset >= end && l.done ==> l' == l && h' == h.(phase := D.Exited))
            && (h.offset >= end && !l.done ==> l' == l && h' == h.(phase := D.Waiting))
            && (l.delivered - l.maxRetain <= h.offset < end ==>
                  var chunk := l.bytes[h.offset..if end - h.offset < 32768 then end else h.offset + 32768];
                  if takes < |chunk| then
                    l' == Calls(l, amid) && h' == h.(body := h.body + chunk[..takes], phase := D.Exited)
                  else
                    && l' == Advanced(Calls(Calls(l, amid), late), h.offset + |chunk|)
                    && h' == D.Handler(h.start, h.offset + |chunk|, h.body + chunk, D.Reading))
  {
    if l.delivered - l.maxRetain <= h.offset < |l.bytes| {
      var k := h.offset + Min(D.COPY_BUFFER, |l.bytes| - h.offset);
      var sending := h.(phase := D.Sending(l.bytes[h.offset..k], k));
      ReadSees(l, h);
      if takes < k - h.offset {
        SendBreaks(Calls(l, amid), sending, late, takes);
      } else {
        SendMoves(Calls(l, amid), sending, late, takes);
      }
    }
  }

  lemma SendBreaks(l: Log, h: D.Handler, late: seq<Call>, takes: nat)
    requires h.phase.Sending? && takes < |h.phase.chunk|
    ensures Send(l, h, late, takes) == (l, h.(body := h.body + h.phase.chunk[..takes], phase := D.Exited))
  {
  }

  /** A waiting handler whose request is cancelled ends there: nothing more is sent, no token taken, nothing
      acknowledged. One that is not, waits on without a token, and with one takes it and reads. */
  lemma WaitingTurn(l: Log, h: D.Handler, t: Turn)
    requires h.phase.Waiting?
    ensures var l0 := Calls(l, t.before);
            && (t.cancelled ==> AfterTurn(l, h, t) == (l0, h.(phase := D.Exited)))
            && (!t.cancelled && !l0.token ==> AfterTurn(l, h, t) == (l0, h))
            && (!t.cancelled && l0.token ==>
                  AfterTurn(l, h, t) == Pass(Calls(l0.(token := false), t.woken), h.(phase := D.Reading),
                                             t.amid, t.late, t.takes))
  {
  }

  /** The turns after the one that is cancelled change neither the response nor the log. */
  lemma {:induction false} CancelledStops(l: Log, h: D.Handler, turns: seq<Turn>, k: nat)
    requires k < |turns| && turns[k].cancelled && Serve(l, h, turns[..k]).1.phase.Waiting?
    ensures var (lk, hk) := Serve(l, h, turns[..k]);
            Serve(l, h, turns) == (Calls(lk, turns[k].before), hk.(phase := D.Exited))
    decreases k
  {
    if k == 0 {
      WaitingTurn(l, h, turns[0]);
    } else {
      assert turns[..k][0] == turns[0] && turns[..k][1..] == turns[1..][..k - 1];
      var (l1, h1) := AfterTurn(l, h, turns[0]);
      CancelledStops(l1, h1, turns[1..], k - 1);
    }
  }

  // ---- The loop ----

  method Others(db: DownloadBuffer, cs: seq<Call>)
    requires db.Valid()
    modifies db
    ensures db.Valid() && db.View() == Calls(old(db.View()), cs)
  {
    for k := 0 to |cs|
      invariant db.Valid() && db.View() == Calls(old(db.View()), cs[..k])
    {
      assert cs[..k + 1][..k] == cs[..k];
      match cs[k] {
        case WriteCall(p) => var _, _ := db.Write(p);
        case AdvanceCall(off) => db.Advance(off);
        case CloseCall => db.Close();
        case TakeCall =>
          if db.notify {
            db.TakeToken();
          }
      }
    }
    assert cs[..|cs|] == cs;
  }

  /** The handler between two turns, from its local variables. */
  function Local(start: nat, offset: nat, body: Bytes, waiting: bool, more: bool): D.Handler {
    D.Handler(start, offset, body, if !more then D.Exited else if waiting then D.Waiting else D.Reading)
  }

  /** Read and send. `more` is false when the handler returns. */
  method SendSome(db: DownloadBuffer, buf: array<byte>, ghost start: nat, offset: nat, sent: Bytes, t: Turn)
    returns (body: Bytes, offset': nat, waiting: bool, more: bool)
    requires db.Valid() && buf.Length == D.COPY_BUFFER
    modifies db, buf
    ensures db.Valid()
    ensures (db.View(), Local(start, offset', body, waiting, more))
            == Pass(old(db.View()), Local(start, offset, sent, false, true), t.amid, t.late, t.takes)
  {
    body, offset', waiting := sent, offset, false;
    var n, newOffset, err := db.ReadFrom(offset, buf);
    if n > 0 {
      var chunk := buf[..n];
      Others(db, t.amid);
      var takes := Min(t.takes, n);
      body := sent + chunk[..takes];
      if takes < n {
        return body, offset', false, false;
      }
      assert chunk[..n] == chunk;
      offset' := newOffset;
      Others(db, t.late);
      db.Advance(offset');
      return body, offset', false, true;
    }
    return body, offset', err == NoError, err == NoError;
  }

  /** The select between a notification and the cancelled context; a handler that is not asleep passes by. */
  method SelectOnce(db: DownloadBuffer, ghost start: nat, ghost offset: nat, ghost sent: Bytes,
                    asleep: bool, cancelled: bool)
    returns (waiting: bool, more: bool)
    requires db.Valid()
    modifies db
    ensures db.Valid()
    ensures (db.View(), Local(start, offset, sent, waiting, more))
            == Select(old(db.View()), Local(start, offset, sent, asleep, true), cancelled)
  {
    waiting, more := asleep, true;
    if waiting {
      if cancelled {
        return true, false;
      }
      if db.notify {
        db.TakeToken();
        waiting := false;
      }
    }
  }

  /** One turn of the loop, with what the others do in it. */
  method TakeTurn(db: DownloadBuffer, buf: array<byte>, ghost start: nat, offset: nat, sent: Bytes, asleep: bool, t: Turn)
    returns (body: Bytes, offset': nat, waiting: bool, more: bool)
    requires db.Valid() && buf.Length == D.COPY_BUFFER
    modifies db, buf
    ensures db.Valid()
    ensures (db.View(), Local(start, offset', body, waiting, more))
            == AfterTurn(old(db.View()), Local(start, offset, sent, asleep, true), t)
  {
    Others(db, t.before);
    waiting, more := SelectOnce(db, start, offset, sent, asleep, t.cancelled);
    if more && !waiting {
      Others(db, t.woken);
      body, offset', waiting, more := SendSome(db, buf, start, offset, sent, t);
    } else {
      body, offset' := sent, offset;
    }
  }

  lemma ServeMore(l: Log, h: D.Handler, turns: seq<Turn>, k: nat)
    requires k < |turns| && !h.phase.Exited?
    ensures var (l', h') := AfterTurn(l, h, turns[k]);
            Serve(l, h, turns[k..]) == if h'.phase.Exited? then (l', h') else Serve(l', h', turns[k + 1..])
  {
    assert turns[k..][1..] == turns[k + 1..];
  }

  /** The handler does, turn by turn, what a handler of the download system does, and stops where it stops. */
  method HandleDownload(db: DownloadBuffer, requested: int, turns: seq<Turn>) returns (body: Bytes)
    requires db.Valid()
    modifies db
    ensures db.Valid()
    ensures var (l, h) := Serve(old(db.View()), D.NewHandler(requested), turns);
            db.View() == l && body == h.body
    ensures forall k :: 0 <= k < |turns| ==>
              var (l, h) := Serve(old(db.View()), D.NewHandler(requested), turns[..k]);
              turns[k].cancelled && h.phase.Waiting? ==> body == h.body && db.View() == Calls(l, turns[k].before)
  {
    Cancellations(db.View(), D.NewHandler(requested), turns);
    body := Loop(db, requested, turns);
  }

  lemma Cancellations(l: Log, h: D.Handler, turns: seq<Turn>)
    ensures forall k :: 0 <= k < |turns| ==>
              var (lk, hk) := Serve(l, h, turns[..k]);
              turns[k].cancelled && hk.phase.Waiting? ==>
                Serve(l, h, turns) == (Calls(lk, turns[k].before), hk.(phase := D.Exited))
  {
    forall k | 0 <= k < |turns| && turns[k].cancelled && Serve(l, h, turns[..k]).1.phase.Waiting?
      ensures var (lk, hk) := Serve(l, h, turns[..k]);
              Serve(l, h, turns) == (Calls(lk, turns[k].before), hk.(phase := D.Exited))
    {
      CancelledStops(l, h, turns, k);
    }
  }

  method Loop(db: DownloadBuffer, requested: int, turns: seq<Turn>) returns (body: Bytes)
    requires db.Valid()
    modifies db
    ensures db.Valid()
    ensures var (l, h) := Serve(old(db.View()), D.NewHandler(requested), turns);
            db.View() == l && body == h.body
  {
    var offset: nat := if requested > 0 then requested else 0;
    ghost var start: nat := offset;
    var buf := new byte[D.COPY_BUFFER](_ => 0);
    body := [];
    var waiting, more := false, true;
    assert turns[0..] == turns;
    for k := 0 to |turns|
      invariant db.Valid() && fresh(buf) && more
      invariant Serve(old(db.View()), D.NewHandler(requested), turns)
             == Serve(db.View(), Local(start, offset, body, waiting, more), turns[k..])
    {
      ServeMore(db.View(), Local(start, offset, body, waiting, more), turns, k);
      body, offset, waiting, more := TakeTurn(db, buf, start, offset, body, waiting, turns[k]);
      if !more {
        return;
      }
    }
  }
}
