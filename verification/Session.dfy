/** The upload half of internal/session/manager.go, and internal/transport/xhttp/conn.go on top of it. */
module Sessions {
  import opened Common

  /** The in-process io.Pipe: at most one write is pending, and closing either end abandons it. */
  datatype Pipe = NoPipe | Pipe(pending: Bytes, closed: bool)

  /** The upload state of a session. `stream` is the streamMode flag. */
  datatype Inbox = Inbox(buf: map<int, Bytes>, next: int, done: bool, stream: bool, pipe: Pipe)

  /** What other goroutines do to a session. */
  datatype Event =
    | Push(chunk: int, data: Bytes)  // PushUpload
    | Open                           // ensureStreamPipe
    | Pump(data: Bytes)              // one write of the stream POST's body into the pipe
    | Eof                            // CloseStreamUpload
    | Shut                           // Close

  /** What Read finds: bytes, the end of the session, or nothing yet. */
  datatype Found =
    | Got(data: Bytes, inbox: Inbox, leftover: Bytes)
    | Ended
    | Blocked

  const FRESH_INBOX := Inbox(map[], 0, false, false, NoPipe)

  predicate Coherent(x: Inbox) {
    x.stream == x.pipe.Pipe?
  }

  function Happen(x: Inbox, e: Event): Inbox {
    match e
    case Push(chunk, data) => if x.done then x else x.(buf := x.buf[chunk := data])
    case Open => if x.pipe.NoPipe? then x.(stream := true, pipe := Pipe([], false)) else x
    case Pump(data) =>
      if x.pipe.Pipe? && !x.pipe.closed && x.pipe.pending == [] then x.(pipe := Pipe(data, false)) else x
    case Eof => if x.pipe.Pipe? then x.(pipe := x.pipe.(closed := true)) else x
    case Shut =>
      if x.done then x
      else x.(done := true, buf := map[], pipe := if x.pipe.Pipe? then x.pipe.(closed := true) else NoPipe)
  }

  /** splitConn.Read without the waiting. */
  function Look(x: Inbox, leftover: Bytes, room: nat): Found {
    if x.stream then
      if x.pipe.NoPipe? || x.pipe.closed then Ended
      else if x.pipe.pending == [] then Blocked
      else
        var n := Min(room, |x.pipe.pending|);
        Got(x.pipe.pending[..n], x.(pipe := Pipe(x.pipe.pending[n..], false)), leftover)
    else if leftover != [] then
      var n := Min(room, |leftover|);
      Got(leftover[..n], x, leftover[n..])
    else if x.done then Ended
    else if x.next in x.buf then
      var data := x.buf[x.next];
      var n := Min(room, |data|);
      Got(data[..n], x.(buf := x.buf - {x.next}, next := x.next + 1), data[n..])
    else Blocked
  }

  /** Waiting: let the others act one by one until the reader finds something. */
  function Await(x: Inbox, leftover: Bytes, room: nat, others: seq<Event>): (Inbox, seq<Event>)
    decreases |others|
  {
    if Look(x, leftover, room) != Blocked || others == [] then (x, others)
    else Await(Happen(x, others[0]), leftover, room, others[1..])
  }

  /** After the first k turns of the others. */
  function Turns(x: Inbox, others: seq<Event>): Inbox {
    if others == [] then x else Happen(Turns(x, others[..|others| - 1]), others[|others| - 1])
  }

  lemma {:induction false} TurnsCons(x: Inbox, e: Event, others: seq<Event>)
    ensures Turns(x, [e] + others) == Turns(Happen(x, e), others)
  {
    if others == [] {
      assert Turns(x, ([e] + others)[..0]) == x;
    } else {
      var n := |others| - 1;
      assert ([e] + others)[..n + 1] == [e] + others[..n];
      TurnsCons(x, e, others[..n]);
    }
  }

  /** Waiting lets the others act exactly as long as the reader finds nothing, and not once more. */
  lemma {:induction false} AwaitExactly(x: Inbox, leftover: Bytes, room: nat, others: seq<Event>) returns (k: nat)
    ensures k <= |others| && Await(x, leftover, room, others) == (Turns(x, others[..k]), others[k..])
    ensures k < |others| ==> Look(Turns(x, others[..k]), leftover, room) != Blocked
    ensures forall j :: 0 <= j < k ==> Look(Turns(x, others[..j]), leftover, room) == Blocked
    decreases |others|
  {
    if others == [] || Look(x, leftover, room) != Blocked {
      k := 0;
    } else {
      var y, rest := Happen(x, others[0]), others[1..];
      var m := AwaitExactly(y, leftover, room, rest);
      forall j | 0 <= j <= m ensures Turns(x, others[..j + 1]) == Turns(y, rest[..j]) {
        assert others[..j + 1] == [others[0]] + rest[..j];
        TurnsCons(x, others[0], rest[..j]);
      }
      forall j | 0 <= j < m + 1 ensures Look(Turns(x, others[..j]), leftover, room) == Blocked {
        if j > 0 {
          assert Turns(x, others[..j - 1 + 1]) == Turns(y, rest[..j - 1]);
        }
      }
      assert others[m + 1..] == rest[m..];
      k := m + 1;
    }
  }

  /** What a reader with room for a byte finds: in stream mode pending bytes, nothing yet, or the end of a pipe that is
      closed; otherwise its leftover, the end of a closed session, the chunk that is next, or nothing yet. */
  lemma FindsExactly(x: Inbox, leftover: Bytes, room: nat)
    requires Coherent(x) && room > 0
    ensures x.stream && x.pipe.closed ==> Look(x, leftover, room) == Ended
    ensures x.stream && !x.pipe.closed && x.pipe.pending == [] ==> Look(x, leftover, room) == Blocked
    ensures x.stream && !x.pipe.closed && x.pipe.pending != [] ==>
              var n := if |x.pipe.pending| < room then |x.pipe.pending| else room;
              && n > 0
              && Look(x, leftover, room)
                 == Got(x.pipe.pending[..n], x.(pipe := Pipe(x.pipe.pending[n..], false)), leftover)
    ensures !x.stream && leftover != [] ==>
              var n := if |leftover| < room then |leftover| else room;
              n > 0 && Look(x, leftover, room) == Got(leftover[..n], x, leftover[n..])
    ensures !x.stream && leftover == [] && x.done ==> Look(x, leftover, room) == Ended
    ensures !x.stream && leftover == [] && !x.done && x.next !in x.buf ==> Look(x, leftover, room) == Blocked
    ensures !x.stream && leftover == [] && !x.done && x.next in x.buf ==>
              var data := x.buf[x.next];
              var n := if |data| < room then |data| else room;
              Look(x, leftover, room) == Got(data[..n], x.(buf := x.buf - {x.next}, next := x.next + 1), data[n..])
  {
  }

  /** Once the session is closed, or the pipe ended, a reader without leftover comes to the end and never sleeps,
      whatever else the others do. */
  lemma {:induction false} EndIsFinal(x: Inbox, others: seq<Event>, room: nat)
    requires Coherent(x) && if x.stream then x.pipe.closed else x.done
    ensures var y := Turns(x, others);
            && Coherent(y) && (x.stream ==> y.stream && y.pipe.closed) && (x.done ==> y.done)
            && (y.stream == x.stream ==> Look(y, [], room) == Ended)
  {
    if others != [] {
      EndIsFinal(x, others[..|others| - 1], room);
    }
  }

  class UploadSession {
    var uploadBuf: map<int, Bytes>
    var nextSeq: int
    var uploadDone: bool
    var streamMode: bool
    var streamPipe: Pipe

    ghost function View(): Inbox
      reads this
    {
      Inbox(uploadBuf, nextSeq, uploadDone, streamMode, streamPipe)
    }

    constructor ()
      ensures View() == FRESH_INBOX
    {
      uploadBuf := map[];
      nextSeq := 0;
      uploadDone := false;
      streamMode := false;
      streamPipe := NoPipe;
    }

    method PushUpload(chunk: int, data: Bytes)
      modifies this
      ensures View() == Happen(old(View()), Push(chunk, data))
      ensures View() == if old(uploadDone) then old(View())
                        else old(View()).(buf := old(uploadBuf)[chunk := data])
    {
      if uploadDone {
        return;
      }
      uploadBuf := uploadBuf[chunk := data];
    }

    method Close()
      modifies this
      ensures View() == Happen(old(View()), Shut)
      ensures uploadDone && nextSeq == old(nextSeq) && streamMode == old(streamMode)
      ensures !old(uploadDone) ==>
                && uploadBuf == map[]
                && streamPipe == if old(streamPipe).Pipe? then Pipe(old(streamPipe).pending, true) else NoPipe
    {
      if uploadDone {
        return;
      }
      uploadDone := true;
      uploadBuf := map[];
      if streamPipe.Pipe? {
        streamPipe := streamPipe.(closed := true);
      }
    }

    method EnsureStreamPipe()
      modifies this
      ensures View() == Happen(old(View()), Open)
      ensures View() == if old(streamPipe).Pipe? then old(View())
                        else old(View()).(stream := true, pipe := Pipe([], false))
    {
      if streamPipe.NoPipe? {
        streamPipe := Pipe([], false);
        streamMode := true;
      }
    }

    method CloseStreamUpload()
      modifies this
      ensures View() == Happen(old(View()), Eof)
      ensures View() == if old(streamPipe).NoPipe? then old(View())
                        else old(View()).(pipe := Pipe(old(streamPipe).pending, true))
    {
      if streamPipe.Pipe? {
        streamPipe := streamPipe.(closed := true);
      }
    }

    /** Another goroutine's turn. */
    method Other(e: Event)
      modifies this
      ensures View() == Happen(old(View()), e)
    {
      match e {
        case Push(chunk, data) => PushUpload(chunk, data);
        case Open => EnsureStreamPipe();
        case Eof => CloseStreamUpload();
        case Shut => Close();
        case Pump(data) =>
          if streamPipe.Pipe? && !streamPipe.closed && streamPipe.pending == [] {
            streamPipe := Pipe(data, false);
          }
      }
    }

    /** The wait loop. `others` are the turns other goroutines take while it sleeps; if they run out it is still
        asleep (`blocked`). It hands out the chunk numbered nextSeq and no other. */
    method ReadUpload(others: seq<Event>) returns (data: Bytes, ok: bool, blocked: bool, rest: seq<Event>)
      requires Coherent(View())
      modifies this
      ensures forall room: nat ::
                var (x, left) := Await(old(View()), [], room, others);
                if blocked then !ok && rest == [] && View() == x && left == [] && Look(x, [], room) == Blocked
                else if ok then
                  && rest == left && !x.stream
                  && x.next in x.buf && data == x.buf[x.next] && View() == x.(buf := x.buf - {x.next}, next := x.next + 1)
                  && Look(x, [], room) == Got(data[..Min(room, |data|)], View(), data[Min(room, |data|)..])
                else
                  && data == []
                  && (View().stream || (View().done && View() == x && left == rest && Look(x, [], room) == Ended))
                  && Await(View(), [], room, rest) == (x, left)
      ensures Coherent(View())
    {
      rest := others;
      while true
        invariant Coherent(View())
        invariant forall room: nat :: Await(View(), [], room, rest) == Await(old(View()), [], room, others)
        decreases |rest|
      {
        if streamMode {
          return [], false, false, rest;
        }
        if uploadDone {
          return [], false, false, rest;
        }
        if nextSeq in uploadBuf {
          data := uploadBuf[nextSeq];
          uploadBuf := uploadBuf - {nextSeq};
          nextSeq := nextSeq + 1;
          return data, true, false, rest;
        }
        if rest == [] {
          return [], false, true, rest;
        }
        Other(rest[0]);
        rest := rest[1..];
      }
    }

    /** Blocking read of the pipe, same conventions. */
    method ReadPipe(room: nat, others: seq<Event>)
      returns (data: Bytes, ended: bool, blocked: bool, ghost left: seq<Event>)
      requires Coherent(View()) && streamMode
      modifies this
      ensures |data| <= room
      ensures old(streamPipe.closed) ==> ended && !blocked && data == []
      ensures old(!streamPipe.closed && streamPipe.pending != []) ==>
                && !ended && !blocked && data == old(streamPipe).pending[..Min(room, |old(streamPipe).pending|)]
                && streamPipe == Pipe(old(streamPipe).pending[|data|..], false)
      ensures forall leftover ::
                var (x, l) := Await(old(View()), leftover, room, others);
                l == left &&
                match Look(x, leftover, room)
                case Got(d, x', lo) => !blocked && !ended && data == d && View() == x' && lo == leftover
                case Ended => !blocked && ended && data == [] && View() == x
                case Blocked => blocked && !ended && data == [] && View() == x && left == []
    {
      var rest := others;
      while true
        invariant Coherent(View()) && streamMode
        invariant old(streamPipe.closed || streamPipe.pending != []) ==> View() == old(View())
        invariant forall leftover :: Await(View(), leftover, room, rest) == Await(old(View()), leftover, room, others)
        decreases |rest|
      {
        if streamPipe.closed {
          return [], true, false, rest;
        }
        if streamPipe.pending != [] {
          var n := Min(room, |streamPipe.pending|);
          data := streamPipe.pending[..n];
          streamPipe := Pipe(streamPipe.pending[n..], false);
          return data, false, false, rest;
        }
        if rest == [] {
          return [], false, true, rest;
        }
        Other(rest[0]);
        rest := rest[1..];
      }
    }
  }

  class SplitConn {
    const sess: UploadSession
    var leftover: Bytes

    constructor (sess: UploadSession)
      ensures this.sess == sess && leftover == []
    {
      this.sess := sess;
      this.leftover := [];
    }

    /** Read waits for the others as long as Look finds nothing, then delivers what Look found, byte for byte. */
    method Read(p: array<byte>, others: seq<Event>) returns (n: nat, ended: bool, blocked: bool)
      requires Coherent(sess.View())
      modifies this, sess, p
      ensures n <= p.Length && p[n..] == old(p[n..])
      ensures old(sess.streamMode && sess.streamPipe.closed) ==> ended && !blocked && n == 0
      ensures old(sess.streamMode && !sess.streamPipe.closed && sess.streamPipe.pending != []) && p.Length > 0 ==>
                && !ended && !blocked && n == Min(p.Length, |old(sess.streamPipe).pending|) > 0
                && p[..n] == old(sess.streamPipe).pending[..n]
                && sess.streamPipe == Pipe(old(sess.streamPipe).pending[n..], false)
      ensures old(!sess.streamMode && leftover != []) ==>
                && !ended && !blocked && n == Min(p.Length, |old(leftover)|)
                && p[..n] == old(leftover)[..n] && leftover == old(leftover)[n..]
      ensures old(!sess.streamMode && leftover == [] && sess.uploadDone) ==> ended && !blocked && n == 0
      ensures old(!sess.streamMode && leftover == [] && !sess.uploadDone && sess.nextSeq in sess.uploadBuf) ==>
                var data := old(sess.uploadBuf[sess.nextSeq]);
                && !ended && !blocked && n == Min(p.Length, |data|)
                && p[..n] == data[..n] && leftover == data[n..] && sess.nextSeq == old(sess.nextSeq) + 1
      ensures var (x, _) := Await(old(sess.View()), old(leftover), p.Length, others);
              match Look(x, old(leftover), p.Length)
              case Got(d, x', lo) => !blocked && !ended && p[..n] == d && sess.View() == x' && leftover == lo
              case Ended => !blocked && ended && n == 0 && sess.View() == x && leftover == old(leftover)
              case Blocked => blocked && !ended && n == 0 && sess.View() == x && leftover == old(leftover)
    {
      if sess.streamMode {
        n, ended, blocked := ReadStream(p, others);
        return;
      }
      if |leftover| > 0 {
        ghost var was := leftover;
        n := CopyTo(p, leftover);
        leftover := leftover[n..];
        assert Look(sess.View(), was, p.Length) == Got(was[..n], sess.View(), was[n..]);
        return n, false, false;
      }
      ghost var (x, left) := Await(sess.View(), [], p.Length, others);
      var data, ok, asleep, rest := sess.ReadUpload(others);
      assert leftover == old(leftover) == [];
      if asleep {
        return 0, false, true;
      }
      if !ok {
        if sess.streamMode {
          n, ended, blocked := ReadStream(p, rest);
          return;
        }
        return 0, true, false;
      }
      assert Look(x, [], p.Length) == Got(data[..Min(p.Length, |data|)], sess.View(), data[Min(p.Length, |data|)..]);
      n := CopyTo(p, data);
      leftover := data[n..];
      return n, false, false;
    }

    method ReadStream(p: array<byte>, others: seq<Event>) returns (n: nat, ended: bool, blocked: bool)
      requires Coherent(sess.View()) && sess.streamMode
      modifies sess, p
      ensures n <= p.Length && p[n..] == old(p[n..])
      ensures old(sess.streamMode && sess.streamPipe.closed) ==> ended && !blocked && n == 0
      ensures old(sess.streamMode && !sess.streamPipe.closed && sess.streamPipe.pending != []) && p.Length > 0 ==>
                && !ended && !blocked && n == Min(p.Length, |old(sess.streamPipe).pending|) > 0
                && p[..n] == old(sess.streamPipe).pending[..n]
                && sess.streamPipe == Pipe(old(sess.streamPipe).pending[n..], false)
      ensures var (x, _) := Await(old(sess.View()), leftover, p.Length, others);
              match Look(x, leftover, p.Length)
              case Got(d, x', lo) => !blocked && !ended && p[..n] == d && sess.View() == x' && lo == leftover
              case Ended => !blocked && ended && n == 0 && sess.View() == x
              case Blocked => blocked && !ended && n == 0 && sess.View() == x
    {
      var data;
      ghost var left;
      data, ended, blocked, left := sess.ReadPipe(p.Length, others);
      n := CopyTo(p, data);
      assert data[..n] == data;
    }
  }
}
