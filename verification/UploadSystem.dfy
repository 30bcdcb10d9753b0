/** The upload direction as a system: a client that cuts its writes into numbered chunks, a network that delivers POSTs
    in any order, repeatedly, late or never, the session, and one reader. (client.go Write, server.go handleUpload.) */
module UploadSystem {
  import opened Common
  import opened Sessions

  /** What the server keeps of a POST body: io.LimitReader, at the server's own MaxChunkSize + 1024. */
  function Received(data: Bytes, limit: nat): Bytes {
    data[..Min(|data|, limit)]
  }

  /** maxChunk is the client's, limit the server's. `chunks[i]` is the chunk numbered i; `landed` are the numbers that
      reached the session; `readPacket` and `readStream` are what Read has returned in either mode;
      `streamed` is what the stream POST has put into the pipe. */
  datatype System = System(maxChunk: nat, limit: nat, written: Bytes, chunks: seq<Bytes>, landed: set<nat>,
                           inbox: Inbox, leftover: Bytes, readPacket: Bytes, readStream: Bytes, streamed: Bytes)

  datatype Step =
    | ClientWrite(p: Bytes)
    | Deliver(i: nat)
    | StreamStart
    | StreamPump(data: Bytes)
    | StreamEof
    | CloseSession
    | Read(room: nat)

  const LIMIT_SLACK: nat := 1024

  function Init(maxChunk: nat, serverMax: nat): System {
    System(maxChunk, serverMax + LIMIT_SLACK, [], [], {}, FRESH_INBOX, [], [], [], [])
  }

  function Apply(s: System, e: Step): System
    requires s.maxChunk > 0
  {
    match e
    case ClientWrite(p) => s.(written := s.written + p, chunks := s.chunks + Cut(p, s.maxChunk))
    case Deliver(i) =>
      if i >= |s.chunks| then s
      else s.(inbox := Happen(s.inbox, Push(i, Received(s.chunks[i], s.limit))), landed := s.landed + {i})
    case StreamStart => s.(inbox := Happen(s.inbox, Open))
    case StreamPump(data) =>
      var x := Happen(s.inbox, Pump(data));
      s.(inbox := x, streamed := if x == s.inbox then s.streamed else s.streamed + data)
    case StreamEof => s.(inbox := Happen(s.inbox, Eof))
    case CloseSession => s.(inbox := Happen(s.inbox, Shut))
    case Read(room) =>
      match Look(s.inbox, s.leftover, room)
      case Got(d, x, left) =>
        if s.inbox.stream then s.(inbox := x, leftover := left, readStream := s.readStream + d)
        else s.(inbox := x, leftover := left, readPacket := s.readPacket + d)
      case _ => s
  }

  function Follow(s: System, steps: seq<Step>): System
    requires s.maxChunk > 0
    ensures Follow(s, steps).maxChunk == s.maxChunk && Follow(s, steps).limit == s.limit
  {
    if steps == [] then s
    else Apply(Follow(s, steps[..|steps| - 1]), steps[|steps| - 1])
  }

  function Reach(steps: seq<Step>, maxChunk: nat, serverMax: nat): System
    requires maxChunk > 0
  {
    Follow(Init(maxChunk, serverMax), steps)
  }

  /** What the world does to the session: a POST that lands puts the chunk of its number there, what of it the server
      keeps; the pipe is opened once, takes bytes while it is empty and open, and is ended; closing ends everything. */
  lemma WorldMoves(s: System, i: nat, data: Bytes)
    requires s.maxChunk > 0
    ensures i < |s.chunks| && !s.inbox.done ==>
              var kept := if |s.chunks[i]| <= s.limit then s.chunks[i] else s.chunks[i][..s.limit];
              Apply(s, Deliver(i)).inbox == s.inbox.(buf := s.inbox.buf[i := kept])
    ensures s.inbox.pipe.NoPipe? ==>
              Apply(s, StreamStart).inbox == s.inbox.(stream := true, pipe := Pipe([], false))
    ensures s.inbox.pipe == Pipe([], false) && data != [] ==>
              Apply(s, StreamPump(data)) == s.(inbox := s.inbox.(pipe := Pipe(data, false)), streamed := s.streamed + data)
    ensures s.inbox.pipe.Pipe? ==>
              Apply(s, StreamEof).inbox == s.inbox.(pipe := Pipe(s.inbox.pipe.pending, true))
    ensures Apply(s, CloseSession).inbox.done && (!s.inbox.done ==> Apply(s, CloseSession).inbox.buf == map[])
    ensures !s.inbox.done && s.inbox.pipe.Pipe? ==> Apply(s, CloseSession).inbox.pipe.closed
  {
    if i < |s.chunks| {
      assert s.chunks[i][..|s.chunks[i]|] == s.chunks[i];
    }
  }

  // ---- Invariant ----

  ghost predicate ChunksOk(s: System) {
    && Flatten(s.chunks) == s.written
    && (forall k :: 0 <= k < |s.chunks| ==> |s.chunks[k]| <= s.maxChunk)
  }

  /** Everything buffered is the chunk of its number; everything landed is either read past or buffered. */
  ghost predicate InboxOk(s: System) {
    && Coherent(s.inbox)
    && 0 <= s.inbox.next <= |s.chunks|
    && (forall k :: k in s.inbox.buf ==> 0 <= k < |s.chunks| && s.inbox.buf[k] == s.chunks[k])
    && (forall k :: k in s.landed && !s.inbox.done ==> k < s.inbox.next || k in s.inbox.buf)
    && (forall k :: k in s.landed ==> k < |s.chunks|)
  }

  ghost predicate BytesOk(s: System)
    requires Coherent(s.inbox) && 0 <= s.inbox.next <= |s.chunks|
  {
    && s.readPacket + s.leftover == Flatten(s.chunks[..s.inbox.next])
    && (if s.inbox.stream then s.readStream + s.inbox.pipe.pending == s.streamed
        else s.readStream == [] && s.streamed == [])
  }

  ghost predicate Inv(s: System) {
    && 0 <= s.inbox.next <= |s.chunks|
    && Coherent(s.inbox)
    && ChunksOk(s) && InboxOk(s) && BytesOk(s)
  }

  lemma ChunksStep(s: System, e: Step)
    requires s.maxChunk > 0 && ChunksOk(s)
    ensures ChunksOk(Apply(s, e)) && s.chunks <= Apply(s, e).chunks
  {
    if e.ClientWrite? {
      CutPieces(e.p, s.maxChunk);
      FlattenConcat(s.chunks, Cut(e.p, s.maxChunk));
    }
  }

  lemma InboxStep(s: System, e: Step)
    requires 0 < s.maxChunk <= s.limit && Inv(s)
    ensures InboxOk(Apply(s, e))
  {
  }

  lemma TakesFront(taken: Bytes, rest: Bytes, n: nat)
    requires n <= |rest|
    ensures (taken + rest[..n]) + rest[n..] == taken + rest
  {
  }

  lemma BytesRead(s: System, room: nat)
    requires 0 < s.maxChunk <= s.limit && Inv(s)
    ensures var s' := Apply(s, Read(room)); Coherent(s'.inbox) && 0 <= s'.inbox.next <= |s'.chunks| && BytesOk(s')
  {
    match Look(s.inbox, s.leftover, room)
    case Got(d, x, left) =>
      var n := |d|;
      if s.inbox.stream {
        TakesFront(s.readStream, s.inbox.pipe.pending, n);
      } else if s.leftover != [] {
        TakesFront(s.readPacket, s.leftover, n);
      } else {
        var k := s.inbox.next;
        TakesFront(s.readPacket, s.chunks[k], n);
        assert s.chunks[..k + 1] == s.chunks[..k] + [s.chunks[k]];
        FlattenSnoc(s.chunks[..k], s.chunks[k]);
      }
    case _ =>
  }

  lemma BytesOther(s: System, e: Step)
    requires 0 < s.maxChunk <= s.limit && Inv(s) && !e.Read?
    ensures var s' := Apply(s, e); Coherent(s'.inbox) && 0 <= s'.inbox.next <= |s'.chunks| && BytesOk(s')
  {
    if e.ClientWrite? {
      assert Apply(s, e).chunks[..s.inbox.next] == s.chunks[..s.inbox.next];
    }
  }

  lemma InvStep(s: System, e: Step)
    requires 0 < s.maxChunk <= s.limit && Inv(s)
    ensures Inv(Apply(s, e))
  {
    InboxStep(s, e);
    ChunksStep(s, e);
    if e.Read? {
      BytesRead(s, e.room);
    } else {
      BytesOther(s, e);
    }
  }

  lemma {:induction false} InvFollow(s: System, steps: seq<Step>)
    requires 0 < s.maxChunk <= s.limit && Inv(s)
    ensures Inv(Follow(s, steps))
  {
    if steps != [] {
      var front := steps[..|steps| - 1];
      InvFollow(s, front);
      InvStep(Follow(s, front), steps[|steps| - 1]);
    }
  }

  lemma InvReach(steps: seq<Step>, maxChunk: nat, serverMax: nat)
    requires 0 < maxChunk <= serverMax + 1024
    ensures Inv(Reach(steps, maxChunk, serverMax))
  {
    InvFollow(Init(maxChunk, serverMax), steps);
  }

  // ---- Safety ----

  /** Read never skips, repeats or passes a missing chunk: read plus leftover is chunks 0..nextSeq-1, a prefix of
      everything written. */
  lemma UploadSafety(steps: seq<Step>, maxChunk: nat, serverMax: nat)
    requires 0 < maxChunk <= serverMax + 1024
    ensures var s := Reach(steps, maxChunk, serverMax);
            && 0 <= s.inbox.next <= |s.chunks|
            && s.readPacket + s.leftover == Flatten(s.chunks[..s.inbox.next])
            && s.readPacket + s.leftover <= s.written
  {
    InvReach(steps, maxChunk, serverMax);
    var s := Reach(steps, maxChunk, serverMax);
    FlattenPrefix(s.chunks, s.inbox.next);
  }

  ghost predicate PrefixSafe(maxChunk: nat, serverMax: nat)
    requires maxChunk > 0
  {
    forall steps :: var s := Reach(steps, maxChunk, serverMax); s.readPacket <= s.written
  }

  function Repeated(n: nat): Bytes {
    seq(n, _ => 0)
  }

  /** When the client's chunks are larger than the server's limit, the cut bytes vanish silently and the next chunk
      follows directly. */
  function CutRun(maxChunk: nat): seq<Step> {
    [ClientWrite(Repeated(maxChunk) + [1]), Deliver(0), Deliver(1), Read(maxChunk), Read(maxChunk)]
  }

  lemma FollowTo(s: System, run: seq<Step>, k: nat)
    requires s.maxChunk > 0 && k < |run|
    ensures Follow(s, run[..k + 1]) == Apply(Follow(s, run[..k]), run[k])
  {
    assert run[..k + 1][..k] == run[..k];
  }

  /** Both chunks have landed, the first one cut. */
  lemma CutLands(maxChunk: nat, serverMax: nat, kept: Bytes)
    requires 0 < serverMax + 1024 < maxChunk && kept == Repeated(maxChunk)[..serverMax + 1024]
    ensures var s := Reach(CutRun(maxChunk)[..3], maxChunk, serverMax);
            && s.inbox == FRESH_INBOX.(buf := map[0 := kept, 1 := [1]])
            && s.leftover == [] && s.readPacket == [] && s.written == Repeated(maxChunk) + [1]
  {
    var run, s0, p := CutRun(maxChunk), Init(maxChunk, serverMax), Repeated(maxChunk) + [1];
    FollowTo(s0, run, 0);
    assert p[..maxChunk] == Repeated(maxChunk) && p[maxChunk..] == [1];
    assert Cut(p, maxChunk) == [Repeated(maxChunk)] + Cut([1], maxChunk);
    assert Follow(s0, run[..1]).chunks == [Repeated(maxChunk), [1]];
    FollowTo(s0, run, 1);
    FollowTo(s0, run, 2);
    assert [1][..1] == [1];
  }

  lemma ReadsOne(s: System, chunk: Bytes, room: nat)
    requires s.maxChunk > 0 && !s.inbox.stream && !s.inbox.done && s.leftover == []
    requires s.inbox.next in s.inbox.buf && s.inbox.buf[s.inbox.next] == chunk && |chunk| <= room
    ensures var t := Apply(s, Read(room));
            && t.readPacket == s.readPacket + chunk && t.leftover == [] && t.written == s.written
            && t.inbox == s.inbox.(buf := s.inbox.buf - {s.inbox.next}, next := s.inbox.next + 1)
  {
    assert chunk[..|chunk|] == chunk;
  }

  lemma OutOfPlace(maxChunk: nat, kept: Bytes)
    requires |kept| < maxChunk
    ensures !(kept + [1] <= Repeated(maxChunk) + [1])
  {
    assert (kept + [1])[|kept|] == 1 && (Repeated(maxChunk) + [1])[|kept|] == 0;
  }

  lemma CutIsRead(maxChunk: nat, serverMax: nat, kept: Bytes)
    requires 0 < serverMax + 1024 < maxChunk && kept == Repeated(maxChunk)[..serverMax + 1024]
    ensures var s := Reach(CutRun(maxChunk)[..4], maxChunk, serverMax);
            && s.inbox == FRESH_INBOX.(buf := map[1 := [1]], next := 1)
            && s.leftover == [] && s.readPacket == kept && s.written == Repeated(maxChunk) + [1]
  {
    var run, s0 := CutRun(maxChunk), Init(maxChunk, serverMax);
    CutLands(maxChunk, serverMax, kept);
    FollowTo(s0, run, 3);
    ReadsOne(Follow(s0, run[..3]), kept, maxChunk);
    assert map[0 := kept, 1 := [1]] - {0} == map[1 := [1]];
    assert [] + kept == kept;
  }

  lemma CutLosesBytes(maxChunk: nat, serverMax: nat)
    requires 0 < serverMax + 1024 < maxChunk
    ensures var s := Reach(CutRun(maxChunk), maxChunk, serverMax);
            !(s.readPacket <= s.written)
  {
    var run, s0 := CutRun(maxChunk), Init(maxChunk, serverMax);
    var kept := Repeated(maxChunk)[..serverMax + LIMIT_SLACK];
    CutIsRead(maxChunk, serverMax, kept);
    FollowTo(s0, run, 4);
    ReadsOne(Follow(s0, run[..4]), [1], maxChunk);
    assert run[..5] == run;
    OutOfPlace(maxChunk, kept);
  }

  /** The prefix guarantee holds for all runs exactly when the client's chunk size fits the server's limit. */
  lemma PrefixSafeExactly(maxChunk: nat, serverMax: nat)
    requires maxChunk > 0
    ensures PrefixSafe(maxChunk, serverMax) <==> maxChunk <= serverMax + 1024
  {
    if maxChunk <= serverMax + LIMIT_SLACK {
      forall steps ensures var s := Reach(steps, maxChunk, serverMax); s.readPacket <= s.written {
        UploadSafety(steps, maxChunk, serverMax);
        var s := Reach(steps, maxChunk, serverMax);
        assert s.readPacket <= s.readPacket + s.leftover;
      }
    } else {
      CutLosesBytes(maxChunk, serverMax);
    }
  }

  // ---- Completeness ----

  ghost predicate AllLanded(s: System) {
    forall i :: 0 <= i < |s.chunks| ==> i in s.landed
  }

  /** If every chunk landed and an open packet session has nothing more for its reader, the reader has it all. */
  lemma BlockedMeansComplete(steps: seq<Step>, maxChunk: nat, serverMax: nat, room: nat)
    requires 0 < maxChunk <= serverMax + 1024
    requires var s := Reach(steps, maxChunk, serverMax);
             && AllLanded(s) && !s.inbox.stream && Look(s.inbox, s.leftover, room) == Blocked
    ensures var s := Reach(steps, maxChunk, serverMax);
            s.readPacket == s.written
  {
    InvReach(steps, maxChunk, serverMax);
    var s := Reach(steps, maxChunk, serverMax);
    assert s.inbox.next == |s.chunks|;
    assert s.chunks[..|s.chunks|] == s.chunks;
  }

  lemma {:induction false} FollowFirst(s: System, e: Step, rest: seq<Step>)
    requires s.maxChunk > 0
    ensures Follow(s, [e] + rest) == Follow(Apply(s, e), rest)
  {
    var run := [e] + rest;
    if rest == [] {
      assert run[..0] == [];
    } else {
      var n := |rest| - 1;
      assert run[..|run| - 1] == [e] + rest[..n];
      FollowFirst(s, e, rest[..n]);
    }
  }

  /** From any reached open packet state in which every chunk has landed, reads with any buffer of at least one byte
      end, after finitely many, with exactly the bytes written. */
  lemma {:induction false} ReadsDrain(s: System, room: nat) returns (drain: seq<Step>)
    requires 0 < s.maxChunk <= s.limit && Inv(s) && AllLanded(s)
    requires !s.inbox.stream && !s.inbox.done && room > 0
    ensures forall e :: e in drain ==> e == Read(room)
    ensures Follow(s, drain).readPacket == s.written
    decreases |s.chunks| - s.inbox.next, |s.leftover|
  {
    if s.leftover == [] && s.inbox.next == |s.chunks| {
      assert s.chunks[..|s.chunks|] == s.chunks;
      drain := [];
    } else {
      var s' := Apply(s, Read(room));
      InvStep(s, Read(room));
      var rest := ReadsDrain(s', room);
      FollowFirst(s, Read(room), rest);
      drain := [Read(room)] + rest;
    }
  }

  // ---- The switch to stream mode ----

  /** Whatever happens, what the reader got from the pipe plus what is pending in it is what was pumped into it. */
  lemma StreamLossless(steps: seq<Step>, maxChunk: nat, serverMax: nat)
    requires 0 < maxChunk <= serverMax + 1024
    ensures var s := Reach(steps, maxChunk, serverMax);
            && s.readStream <= s.streamed
            && (s.inbox.stream && !s.inbox.pipe.NoPipe? ==> s.readStream + s.inbox.pipe.pending == s.streamed)
            && (s.landed == {} ==> s.readPacket == [] && s.leftover == [])
  {
    InvReach(steps, maxChunk, serverMax);
    LandedFollow(Init(maxChunk, serverMax), steps);
  }

  /** From any reached open stream state, reads with any buffer of at least one byte end, after finitely many, with
      exactly the bytes pumped. */
  lemma {:induction false} StreamDrains(s: System, room: nat) returns (drain: seq<Step>)
    requires 0 < s.maxChunk <= s.limit && Inv(s)
    requires s.inbox.stream && !s.inbox.pipe.closed && room > 0
    ensures forall e :: e in drain ==> e == Read(room)
    ensures Follow(s, drain).readStream == s.streamed
    decreases |s.inbox.pipe.pending|
  {
    if s.inbox.pipe.pending == [] {
      drain := [];
    } else {
      InvStep(s, Read(room));
      var rest := StreamDrains(Apply(s, Read(room)), room);
      FollowFirst(s, Read(room), rest);
      drain := [Read(room)] + rest;
    }
  }

  /** And a byte string put into an open, empty pipe is pumped: so it is read. */
  lemma PumpedIsRead(s: System, data: Bytes, room: nat) returns (drain: seq<Step>)
    requires 0 < s.maxChunk <= s.limit && Inv(s)
    requires s.inbox.stream && !s.inbox.pipe.closed && s.inbox.pipe.pending == [] && room > 0
    ensures forall e :: e in drain ==> e == Read(room)
    ensures Follow(Apply(s, StreamPump(data)), drain).readStream == s.readStream + data
  {
    InvStep(s, StreamPump(data));
    drain := StreamDrains(Apply(s, StreamPump(data)), room);
    assert s.streamed == s.readStream + [] == s.readStream;
  }

  /** As long as no packet chunk has landed, the packet side is empty. */
  predicate NothingLanded(s: System) {
    s.landed == {} ==> s.inbox.buf == map[] && s.readPacket == [] && s.leftover == []
  }

  lemma LandedStep(s: System, e: Step)
    requires s.maxChunk > 0 && NothingLanded(s)
    ensures NothingLanded(Apply(s, e))
  {
    if e.Deliver? && e.i < |s.chunks| {
      assert e.i in Apply(s, e).landed;
    }
  }

  lemma {:induction false} LandedFollow(s: System, steps: seq<Step>)
    requires s.maxChunk > 0 && NothingLanded(s)
    ensures NothingLanded(Follow(s, steps))
  {
    if steps != [] {
      LandedFollow(s, steps[..|steps| - 1]);
      LandedStep(Follow(s, steps[..|steps| - 1]), steps[|steps| - 1]);
    }
  }

  /** After the switch the packet side is frozen: nothing more of it is ever read. */
  lemma {:induction false} SwitchFreezesPackets(s: System, steps: seq<Step>)
    requires s.maxChunk > 0 && Coherent(s.inbox) && s.inbox.stream
    ensures var t := Follow(s, steps);
            Coherent(t.inbox) && t.inbox.stream && t.readPacket == s.readPacket && t.leftover == s.leftover
            && t.inbox.next == s.inbox.next
  {
    if steps != [] {
      SwitchFreezesPackets(s, steps[..|steps| - 1]);
    }
  }

  /** Some continuation gets the packet side to hand out exactly these bytes. */
  ghost predicate CanHaveRead(s: System, bytes: Bytes)
    requires s.maxChunk > 0
  {
    exists steps :: Follow(s, steps).readPacket == bytes
  }

  /** The switch loses packet bytes exactly when some had been written and not yet read: though all chunks have landed,
      no continuation completes them. */
  lemma SwitchLosesExactly(s: System)
    requires 0 < s.maxChunk <= s.limit && Inv(s) && !s.inbox.stream && !s.inbox.done && AllLanded(s)
    ensures CanHaveRead(s, s.written)
    ensures CanHaveRead(Apply(s, StreamStart), s.written) <==> s.readPacket == s.written
  {
    var drain := ReadsDrain(s, 1);
    assert Follow(s, drain).readPacket == s.written;
    var t := Apply(s, StreamStart);
    forall steps ensures Follow(t, steps).readPacket == s.readPacket {
      SwitchFreezesPackets(t, steps);
    }
    var none: seq<Step> := [];
    assert Follow(t, none).readPacket == s.readPacket;
  }
}
