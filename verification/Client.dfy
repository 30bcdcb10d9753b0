/** internal/transport/xhttp/client.go: both directions of a clientConn. */
module Client {
  import opened Common
  import opened Pipeline
  import D = DownloadSystem
  import U = UploadSystem

  const DEFAULT_CLIENT_CHUNK: nat := 65536
  const READ_TRIES: nat := 3

  datatype Post = Post(number: int, data: Bytes)

  /** The loop that cuts a write into numbered chunks. */
  method CutChunks(p: Bytes, maxChunk: nat, from: int) returns (chunks: seq<Post>)
    requires 0 < maxChunk < |p|
    ensures |chunks| == |Cut(p, maxChunk)|
    ensures forall k: nat :: k < |chunks| ==> chunks[k].number == from + k && chunks[k].data == Cut(p, maxChunk)[k]
  {
    ghost var all := Cut(p, maxChunk);
    ghost var cut: seq<Bytes> := [];
    chunks := [];
    var i := 0;
    while i < |p|
      invariant 0 <= i && |chunks| == |cut|
      invariant forall k: nat :: k < |chunks| ==> chunks[k].number == from + k && chunks[k].data == cut[k]
      invariant i < |p| ==> cut + Cut(p[i..], maxChunk) == all
      invariant i >= |p| ==> cut == all
    {
      var end := i + maxChunk;
      if end > |p| {
        end := |p|;
      }
      ghost var rest := p[i..];
      if |rest| <= maxChunk {
        assert p[i..end] == rest;
        assert Cut(rest, maxChunk) == [p[i..end]];
      } else {
        assert rest[..maxChunk] == p[i..end] && rest[maxChunk..] == p[end..];
        assert cut + ([p[i..end]] + Cut(p[end..], maxChunk))
            == (cut + [p[i..end]]) + Cut(p[end..], maxChunk);
      }
      chunks := chunks + [Post(from + |chunks|, p[i..end])];
      cut := cut + [p[i..end]];
      i := i + maxChunk;
    }
  }

  /** The loop that receives one result per chunk and remembers the first error. */
  method ReceiveAll(received: seq<Result>) returns (firstErr: Option<PostError>)
    ensures firstErr == FirstError(received)
  {
    firstErr := None;
    for k := 0 to |received|
      invariant firstErr == FirstError(received[..k])
    {
      assert received[..k + 1] == received[..k] + [received[k]];
      FirstErrorSnoc(received[..k], received[k]);
      if received[k].err.Some? && firstErr.None? {
        firstErr := received[k].err;
      }
    }
    assert received[..|received|] == received;
  }

  // ---- Write, as steps of the upload system ----

  /** What the writes of a run are cut into, one write after the other. */
  function AllChunks(writes: seq<Bytes>, maxChunk: nat): seq<Bytes>
    requires maxChunk > 0
  {
    if writes == [] then []
    else AllChunks(writes[..|writes| - 1], maxChunk) + Cut(writes[|writes| - 1], maxChunk)
  }

  lemma AllChunksSnoc(writes: seq<Bytes>, p: Bytes, maxChunk: nat)
    requires maxChunk > 0
    ensures AllChunks(writes + [p], maxChunk) == AllChunks(writes, maxChunk) + Cut(p, maxChunk)
  {
    assert (writes + [p])[..|writes|] == writes;
  }

  function WritesIn(steps: seq<U.Step>): seq<Bytes> {
    if steps == [] then []
    else
      var e := steps[|steps| - 1];
      WritesIn(steps[..|steps| - 1]) + if e.ClientWrite? then [e.p] else []
  }

  /** The chunks of any run are those of its writes, whatever else happens in it. */
  lemma {:induction false} ChunksInARun(steps: seq<U.Step>, maxChunk: nat, serverMax: nat)
    requires maxChunk > 0
    ensures U.Reach(steps, maxChunk, serverMax).chunks == AllChunks(WritesIn(steps), maxChunk)
  {
    if steps != [] {
      var n := |steps| - 1;
      ChunksInARun(steps[..n], maxChunk, serverMax);
      if steps[n].ClientWrite? {
        AllChunksSnoc(WritesIn(steps[..n]), steps[n].p, maxChunk);
      } else {
        assert WritesIn(steps) == WritesIn(steps[..n]);
      }
    }
  }

  // ---- Read, as steps of the download system ----

  datatype ReadError = NoReadError | Broken(e: PostError) | ReconnectFailed(e: PostError) | StreamFailed(e: PostError) | Eof

  /** One of Read's three tries, as the network decides it: what the server's side does before and while it waits,
      whether a new GET is refused, how many bytes the response yields at most, and how it ends when it yields none. */
  datatype Try = Try(before: seq<D.Step>, refused: Option<PostError>, meanwhile: seq<D.Step>,
                     got: nat, end: Option<PostError>)

  predicate ServerSide(e: D.Step) {
    !e.Connect? && !e.ClientRead? && !e.ClientDrop?
  }

  predicate ServerTry(t: Try) {
    (forall e :: e in t.before ==> ServerSide(e)) && (forall e :: e in t.meanwhile ==> ServerSide(e))
  }

  /** The bytes of the attached response that the client has not taken yet. */
  function Left(s: D.System): Bytes {
    if s.attached.Some? && s.attached.value.handler < |s.handlers|
       && s.attached.value.consumed <= |s.handlers[s.attached.value.handler].body|
    then s.handlers[s.attached.value.handler].body[s.attached.value.consumed..]
    else []
  }

  predicate Refused(s: D.System, t: Try) {
    D.Follow(s, t.before).attached.None? && t.refused.Some?
  }

  /** Up to the moment the response is read. */
  function Opening(s: D.System, t: Try): seq<D.Step> {
    t.before + (if D.Follow(s, t.before).attached.None? then [D.Connect] else []) + t.meanwhile
  }

  function Opened(s: D.System, t: Try): D.System {
    var s0 := D.Follow(s, t.before);
    D.Follow(if s0.attached.None? then D.Apply(s0, D.Connect) else s0, t.meanwhile)
  }

  /** The steps of one try, where they lead, how many bytes it gave, and the error with which Read stops. */
  datatype Round = Round(steps: seq<D.Step>, after: D.System, n: nat, stop: Option<ReadError>)

  /** Reading the response. */
  function Taking(t: Try, last: bool, s: D.System, room: nat): (seq<D.Step>, nat, Option<ReadError>) {
    var n := Min(Min(t.got, |Left(s)|), room);
    if n > 0 then ([D.ClientRead(n)], n, Some(NoReadError))
    else if t.end.Some? then ([D.ClientDrop], 0, if last then Some(StreamFailed(t.end.value)) else None)
    else ([], 0, None)
  }

  function OneTry(t: Try, last: bool, s: D.System, room: nat): Round {
    if Refused(s, t) then
      Round(t.before, D.Follow(s, t.before), 0, if last then Some(ReconnectFailed(t.refused.value)) else None)
    else
      var (taking, n, stop) := Taking(t, last, Opened(s, t), room);
      Round(Opening(s, t) + taking, D.Follow(Opened(s, t), taking), n, stop)
  }

  datatype Tried = Tried(steps: seq<D.Step>, after: D.System, n: nat, err: ReadError)

  /** What the tries from the r-th on come to, when `room` bytes can be taken at most. */
  function TryFrom(tries: seq<Try>, r: nat, s: D.System, room: nat): Tried
    requires |tries| == READ_TRIES && r <= READ_TRIES
    decreases READ_TRIES - r
  {
    if r == READ_TRIES then Tried([], s, 0, Eof)
    else
      var o := OneTry(tries[r], r == READ_TRIES - 1, s, room);
      if o.stop.Some? then Tried(o.steps, o.after, o.n, o.stop.value)
      else
        var rest := TryFrom(tries, r + 1, o.after, room);
        rest.(steps := o.steps + rest.steps)
  }

  lemma FollowOne(s: D.System, e: D.Step)
    ensures D.Follow(s, [e]) == D.Apply(s, e)
  {
    assert [e][..0] == [];
    assert D.Follow(s, [e][..0]) == s;
  }

  lemma OpeningLeads(s: D.System, t: Try)
    ensures D.Follow(s, Opening(s, t)) == Opened(s, t)
  {
    var s0 := D.Follow(s, t.before);
    var connect := if s0.attached.None? then [D.Connect] else [];
    D.FollowMore(s, t.before, connect);
    D.FollowMore(s, t.before + connect, t.meanwhile);
    FollowOne(s0, D.Connect);
  }

  lemma OneTryLeads(t: Try, last: bool, s: D.System, room: nat)
    ensures var o := OneTry(t, last, s, room); D.Follow(s, o.steps) == o.after
  {
    if !Refused(s, t) {
      OpeningLeads(s, t);
      D.FollowMore(s, Opening(s, t), Taking(t, last, Opened(s, t), room).0);
    }
  }

  /** Read's tries are a run of the download system: from any reached state they reach another. */
  lemma {:induction false} TriesAreSteps(tries: seq<Try>, r: nat, s: D.System, room: nat)
    requires |tries| == READ_TRIES && r <= READ_TRIES
    ensures var got := TryFrom(tries, r, s, room); D.Follow(s, got.steps) == got.after
    decreases READ_TRIES - r
  {
    if r < READ_TRIES {
      var o := OneTry(tries[r], r == READ_TRIES - 1, s, room);
      OneTryLeads(tries[r], r == READ_TRIES - 1, s, room);
      if o.stop.None? {
        TriesAreSteps(tries, r + 1, o.after, room);
        D.FollowMore(s, o.steps, TryFrom(tries, r + 1, o.after, room).steps);
      }
    }
  }

  /** So in every run of the system whose client half is this loop, what Read has returned is the log up to
      downloadOffset. */
  lemma ReadsInARun(run: seq<D.Step>, maxRetain: int, tries: seq<Try>, room: nat)
    requires |tries| == 3
    ensures var got := TryFrom(tries, 0, D.Reach(run, maxRetain), room);
            && got.after == D.Reach(run + got.steps, maxRetain)
            && got.after.offset <= |got.after.log.bytes|
            && got.after.returned == got.after.log.bytes[..got.after.offset]
  {
    var s := D.Reach(run, maxRetain);
    var got := TryFrom(tries, 0, s, room);
    TriesAreSteps(tries, 0, s, room);
    D.ReachMore(run, got.steps, maxRetain);
    D.DownloadSafety(run + got.steps, maxRetain);
  }

  /** The server's side moves neither the client's place nor what it has returned, and only lengthens its response. */
  lemma {:induction false} ServerSideKeeps(s: D.System, steps: seq<D.Step>)
    requires forall e :: e in steps ==> ServerSide(e)
    ensures var s' := D.Follow(s, steps);
            s'.attached == s.attached && s'.offset == s.offset && s'.returned == s.returned
  {
    if steps != [] {
      ServerSideKeeps(s, steps[..|steps| - 1]);
      assert ServerSide(steps[|steps| - 1]);
    }
  }

  /** What the client's place is when the response is read. */
  lemma OpenedKeeps(s: D.System, t: Try)
    requires D.Inv(s) && ServerTry(t)
    ensures D.Inv(D.Follow(s, t.before)) && D.Inv(Opened(s, t))
    ensures var s0, s1 := D.Follow(s, t.before), Opened(s, t);
            && s0.attached == s.attached && s1.offset == s0.offset == s.offset
            && s1.returned == s0.returned == s.returned
            && s1.attached == if s0.attached.None? then Some(D.Body(|s0.handlers|, 0)) else s0.attached
  {
    var s0 := D.Follow(s, t.before);
    D.InvFollow(s, t.before);
    ServerSideKeeps(s, t.before);
    var s1 := if s0.attached.None? then D.Apply(s0, D.Connect) else s0;
    if s0.attached.None? {
      D.InvStep(s0, D.Connect);
    }
    D.InvFollow(s1, t.meanwhile);
    ServerSideKeeps(s1, t.meanwhile);
  }

  /** Taking n bytes of what is left. */
  lemma TakesLeft(s: D.System, n: nat)
    requires D.Inv(s) && s.attached.Some? && n <= |Left(s)|
    ensures var s', b := D.Apply(s, D.ClientRead(n)), s.attached.value;
            && D.Inv(s') && s'.offset == s.offset + n && s'.returned == s.returned + Left(s)[..n]
            && s'.attached == Some(D.Body(b.handler, b.consumed + n))
  {
    D.InvStep(s, D.ClientRead(n));
    var b := s.attached.value;
    SliceOfSlice(s.handlers[b.handler].body, b.consumed, |s.handlers[b.handler].body|, 0, n);
  }

  lemma TakingGives(t: Try, last: bool, s: D.System, room: nat)
    requires D.Inv(s) && s.attached.Some?
    ensures var (taking, n, stop) := Taking(t, last, s, room);
            var s' := D.Follow(s, taking);
            && D.Inv(s') && n <= |Left(s)| && n <= room && s'.offset == s.offset + n
            && (n > 0 <==> stop == Some(NoReadError))
            && s'.returned == s.returned + Left(s)[..n]
            && s'.attached == (if n > 0 then Some(D.Body(s.attached.value.handler, s.attached.value.consumed + n))
                               else if t.end.Some? then None else s.attached)
  {
    var (taking, n, stop) := Taking(t, last, s, room);
    if n > 0 {
      TakesLeft(s, n);
      FollowOne(s, D.ClientRead(n));
    } else if t.end.Some? {
      D.InvStep(s, D.ClientDrop);
      FollowOne(s, D.ClientDrop);
    }
  }

  lemma OneTryGives(t: Try, last: bool, s: D.System, room: nat)
    requires D.Inv(s) && ServerTry(t)
    ensures var o := OneTry(t, last, s, room);
            && D.Inv(o.after) && o.n <= room && o.after.offset == s.offset + o.n
            && (o.n > 0 <==> o.stop == Some(NoReadError))
            && (o.n == 0 ==> o.after.returned == s.returned)
  {
    OpenedKeeps(s, t);
    if !Refused(s, t) {
      TakingGives(t, last, Opened(s, t), room);
    }
  }

  /** Each try that was let through had nothing to give, or was allowed nothing. */
  ghost predicate Barren(tries: seq<Try>, r: nat, s: D.System, room: nat)
    requires |tries| == READ_TRIES && r <= READ_TRIES
    decreases READ_TRIES - r
  {
    r < READ_TRIES ==>
      var o := OneTry(tries[r], r == READ_TRIES - 1, s, room);
      && ((D.Follow(s, tries[r].before).attached.None? && tries[r].refused.Some?)
          || tries[r].got == 0 || Left(Opened(s, tries[r])) == [])
      && (o.stop.None? ==> Barren(tries, r + 1, o.after, room))
  }

  /** How a Read that got nothing ends: its last try was refused, or its response ended with an error and was given up,
      or it had nothing yet and is kept. */
  predicate EndsWith(t: Try, err: ReadError, after: D.System) {
    match err
    case ReconnectFailed(e) => t.refused == Some(e) && after.attached.None?
    case StreamFailed(e) => t.end == Some(e) && after.attached.None?
    case Eof => t.end.None? && after.attached.Some?
    case _ => false
  }

  lemma LastTryEnds(t: Try, s: D.System, room: nat)
    requires D.Inv(s) && ServerTry(t) && OneTry(t, true, s, room).n == 0
    ensures var o := OneTry(t, true, s, room);
            EndsWith(t, if o.stop.Some? then o.stop.value else Eof, o.after)
  {
    OpenedKeeps(s, t);
    if !Refused(s, t) {
      TakingGives(t, true, Opened(s, t), room);
    }
  }

  /** A Read that fails has lost nothing: no byte was taken, and no try that could give one was passed over. */
  lemma {:induction false} NothingSkipped(tries: seq<Try>, r: nat, s: D.System, room: nat)
    requires |tries| == READ_TRIES && r <= READ_TRIES
    requires D.Inv(s) && forall t :: t in tries ==> ServerTry(t)
    ensures var got := TryFrom(tries, r, s, room);
            && D.Inv(got.after) && got.n <= room && got.after.offset == s.offset + got.n
            && (got.n > 0 <==> got.err == NoReadError)
            && (got.n == 0 ==> got.after.returned == s.returned && (room > 0 ==> Barren(tries, r, s, room)))
            && (got.n == 0 && r < 3 ==> EndsWith(tries[2], got.err, got.after))
    decreases READ_TRIES - r
  {
    if r < READ_TRIES {
      var o := OneTry(tries[r], r == READ_TRIES - 1, s, room);
      assert tries[r] in tries;
      OneTryGives(tries[r], r == READ_TRIES - 1, s, room);
      if r == READ_TRIES - 1 && o.n == 0 {
        LastTryEnds(tries[r], s, room);
      }
      if o.stop.None? {
        NothingSkipped(tries, r + 1, o.after, room);
      }
    }
  }

  // ---- The conn ----

  /** What a write into the stream-mode pipe reports: how many bytes the request body took, and why not all. */
  datatype Piped = Piped(took: nat, err: Option<PostError>)

  class ClientConn {
    const maxChunkSize: int
    const streams: bool  // uploadMode is stream
    var uploadSeq: int
    var downloadOffset: nat
    var downloadBody: Option<D.Body>
    var brokenErr: Option<PostError>
    var closed: bool
    ghost var posts: seq<Post>  // every POST ever started, in the order their numbers were taken
    ghost var writes: seq<Bytes>  // every write that was posted
    ghost var piped: Bytes      // every byte the stream POST's body ever took

    constructor (maxChunkSize: int, streams: bool)
      ensures this.maxChunkSize == maxChunkSize && this.streams == streams
      ensures uploadSeq == 0 && downloadOffset == 0 && downloadBody.None? && brokenErr.None? && !closed
      ensures posts == [] && piped == [] && writes == [] && InStep()
    {
      this.maxChunkSize := maxChunkSize;
      this.streams := streams;
      uploadSeq := 0;
      downloadOffset := 0;
      downloadBody := None;
      brokenErr := None;
      closed := false;
      posts := [];
      writes := [];
      piped := [];
    }

    function ChunkSize(): (n: nat)
      ensures n == if maxChunkSize <= 0 then 65536 else maxChunkSize
    {
      if maxChunkSize <= 0 then DEFAULT_CLIENT_CHUNK else maxChunkSize
    }

    /** The POST numbered i carries the i-th chunk of all that was written. */
    ghost predicate InStep()
      reads this
    {
      var chunks := AllChunks(writes, ChunkSize());
      && uploadSeq == |posts| == |chunks|
      && forall i: nat :: i < |posts| ==> posts[i].number == i && posts[i].data == chunks[i]
    }

    /** So the conn is the client of every run of the upload system that makes the same writes. */
    lemma PostsInARun(steps: seq<U.Step>, serverMax: nat)
      requires InStep() && WritesIn(steps) == writes
      ensures var s := U.Reach(steps, ChunkSize(), serverMax);
              |posts| == |s.chunks| && forall i: nat :: i < |posts| ==> posts[i] == Post(i, s.chunks[i])
    {
      ChunksInARun(steps, ChunkSize(), serverMax);
    }

    /** The first error sticks, and closes the conn. */
    method MarkBroken(e: PostError)
      modifies this`brokenErr, this`closed
      ensures brokenErr == if old(brokenErr).Some? then old(brokenErr) else Some(e)
      ensures closed == (old(closed) || old(brokenErr).None?)
    {
      if brokenErr.None? {
        brokenErr := Some(e);
        closed := true;
      }
    }

    /** `received` are the results in the order the result channel gives them, one per chunk; `pipe` is what the pipe
        of stream mode reports, which takes all or says why not. */
    method Write(p: Bytes, received: seq<Result>, pipe: Piped) returns (n: nat, err: Option<PostError>)
      requires !streams ==> |received| == |Cut(p, ChunkSize())|
      requires streams ==> pipe.took <= |p| && (pipe.took < |p| ==> pipe.err.Some?)
      modifies this`uploadSeq, this`posts, this`writes, this`piped, this`brokenErr, this`closed
      ensures old(brokenErr).Some? ==>
                && n == 0 && err == brokenErr == old(brokenErr) && closed == old(closed)
                && posts == old(posts) && uploadSeq == old(uploadSeq) && piped == old(piped) && writes == old(writes)
      ensures old(brokenErr).None? && streams ==>
                && piped == old(piped) + p[..pipe.took]
                && posts == old(posts) && uploadSeq == old(uploadSeq) && writes == old(writes)
                && n == pipe.took && err == brokenErr == pipe.err
      ensures old(brokenErr).None? && !streams ==>
                var chunks, before := Cut(p, ChunkSize()), |old(posts)|;
                && |posts| == before + |chunks| && posts[..before] == old(posts)
                && (forall i: nat :: before <= i < |posts| ==>
                      posts[i].number == old(uploadSeq) + (i - before) && posts[i].data == chunks[i - before])
                && uploadSeq == old(uploadSeq) + |chunks|
                && writes == old(writes) + [p] && piped == old(piped)
                && err == brokenErr == FirstError(received)
                && n == if err.Some? then 0 else |p|
      ensures old(brokenErr).None? ==> closed == (old(closed) || err.Some?)
      ensures old(InStep()) ==> InStep()
    {
      if brokenErr.Some? {
        return 0, brokenErr;
      }
      if streams {
        piped := piped + p[..pipe.took];
        if pipe.err.Some? {
          MarkBroken(pipe.err.value);
        }
        return pipe.took, pipe.err;
      }
      AllChunksSnoc(writes, p, ChunkSize());
      writes := writes + [p];
      n, err := PostAll(p, received);
    }

    /** Packet mode: the fast path of one chunk, or the pipeline. */
    method PostAll(p: Bytes, received: seq<Result>) returns (n: nat, err: Option<PostError>)
      requires brokenErr.None? && |received| == |Cut(p, ChunkSize())|
      modifies this`uploadSeq, this`posts, this`brokenErr, this`closed
      ensures var chunks, before := Cut(p, ChunkSize()), |old(posts)|;
              && |posts| == before + |chunks| && posts[..before] == old(posts)
              && (forall i: nat :: before <= i < |posts| ==>
                    posts[i].number == old(uploadSeq) + (i - before) && posts[i].data == chunks[i - before])
              && uploadSeq == old(uploadSeq) + |chunks|
      ensures err == brokenErr == FirstError(received) && n == if err.Some? then 0 else |p|
      ensures closed == (old(closed) || err.Some?)
    {
      var maxChunk := ChunkSize();
      if |p| <= maxChunk {
        posts := posts + [Post(uploadSeq, p)];
        uploadSeq := uploadSeq + 1;
        assert Cut(p, maxChunk) == [p];
        assert FirstError(received) == received[0].err by {
          assert received[1..] == [];
        }
        if received[0].err.Some? {
          MarkBroken(received[0].err.value);
          return 0, received[0].err;
        }
        return |p|, None;
      }
      var chunks := CutChunks(p, maxChunk, uploadSeq);
      uploadSeq := uploadSeq + |chunks|;
      posts := posts + chunks;
      var firstErr := ReceiveAll(received);
      if firstErr.Some? {
        MarkBroken(firstErr.value);
        return 0, firstErr;
      }
      return |p|, None;
    }

    /** The conn is the client of this system: it reads the response, and stands at the offset, that the system says. */
    ghost predicate Tracks(net: D.System)
      reads this
    {
      net.offset == downloadOffset && net.attached == downloadBody
    }

    /** A GET if there is no response yet. */
    method Reopen(net: D.System, t: Try) returns (refused: bool, after: D.System)
      requires Tracks(net) && D.Inv(net) && ServerTry(t)
      modifies this`downloadBody
      ensures refused == Refused(net, t)
      ensures after == if refused then D.Follow(net, t.before) else Opened(net, t)
      ensures Tracks(after) && D.Inv(after) && after.returned == net.returned && (!refused ==> downloadBody.Some?)
    {
      OpenedKeeps(net, t);
      after := D.Follow(net, t.before);
      if downloadBody.None? {
        if t.refused.Some? {
          return true, after;
        }
        downloadBody := Some(D.Body(|after.handlers|, 0));
        after := D.Apply(after, D.Connect);
      }
      after := D.Follow(after, t.meanwhile);
      return false, after;
    }

    /** Reading from the response. */
    method TakeSome(p: array<byte>, net: D.System, t: Try, last: bool)
      returns (n: nat, stop: Option<ReadError>, after: D.System)
      requires Tracks(net) && D.Inv(net) && downloadBody.Some?
      modifies this`downloadOffset, this`downloadBody, p
      ensures var (taking, m, s) := Taking(t, last, net, p.Length); n == m && stop == s && after == D.Follow(net, taking)
      ensures Tracks(after) && D.Inv(after)
      ensures n <= p.Length && p[n..] == old(p[n..]) && after.returned == net.returned + p[..n]
    {
      TakingGives(t, last, net, p.Length);
      var b := downloadBody.value;
      var left := net.handlers[b.handler].body[b.consumed..];
      var there := left[..Min(t.got, |left|)];
      n := CopyTo(p, there);
      SliceOfSlice(left, 0, |there|, 0, n);
      if n > 0 {
        downloadOffset := downloadOffset + n;
        downloadBody := Some(D.Body(b.handler, b.consumed + n));
        return n, Some(NoReadError), D.Follow(net, [D.ClientRead(n)]);
      }
      if t.end.Some? {
        downloadBody := None;
        return 0, if last then Some(StreamFailed(t.end.value)) else None, D.Follow(net, [D.ClientDrop]);
      }
      return 0, None, net;
    }

    /** One try: its effects on the system are those of Connect, ClientRead and ClientDrop. */
    method TryOnce(p: array<byte>, net: D.System, t: Try, last: bool)
      returns (n: nat, stop: Option<ReadError>, after: D.System)
      requires Tracks(net) && D.Inv(net) && ServerTry(t)
      modifies this`downloadOffset, this`downloadBody, p
      ensures var o := OneTry(t, last, net, p.Length); n == o.n && stop == o.stop && after == o.after
      ensures Tracks(after) && D.Inv(after)
      ensures n <= p.Length && p[n..] == old(p[n..]) && after.returned == net.returned + p[..n]
    {
      var refused;
      refused, after := Reopen(net, t);
      if refused {
        return 0, if last then Some(ReconnectFailed(t.refused.value)) else None, after;
      }
      n, stop, after := TakeSome(p, after, t, last);
    }

    /** Read takes the system through a run of it, and returns exactly the next bytes of the log. */
    method Read(p: array<byte>, net: D.System, tries: seq<Try>) returns (n: nat, err: ReadError, after: D.System)
      requires Tracks(net) && D.Inv(net) && |tries| == 3 && forall t :: t in tries ==> ServerTry(t)
      modifies this`downloadOffset, this`downloadBody, p
      ensures Tracks(after) && D.Inv(after)
      ensures n <= p.Length && p[n..] == old(p[n..]) && after.returned == net.returned + p[..n]
      ensures old(downloadOffset) + n == downloadOffset <= |after.log.bytes|
      ensures p[..n] == after.log.bytes[old(downloadOffset)..downloadOffset]
      ensures brokenErr.Some? ==> n == 0 && err == Broken(brokenErr.value) && after == net
      ensures brokenErr.None? ==>
                var got := TryFrom(tries, 0, net, p.Length);
                n == got.n && err == got.err && after == got.after && after == D.Follow(net, got.steps)
    {
      if brokenErr.Some? {
        return 0, Broken(brokenErr.value), net;
      }
      after := net;
      TriesAreSteps(tries, 0, net, p.Length);
      for retries := 0 to READ_TRIES
        invariant Tracks(after) && D.Inv(after) && after.returned == net.returned && after.offset == net.offset
        invariant p[..] == old(p[..])
        invariant var got, all := TryFrom(tries, retries, after, p.Length), TryFrom(tries, 0, net, p.Length);
                  got.n == all.n && got.err == all.err && got.after == all.after
      {
        var stop;
        n, stop, after := TryOnce(p, after, tries[retries], retries == READ_TRIES - 1);
        if stop.Some? {
          return n, stop.value, after;
        }
      }
      return 0, Eof, after;
    }
  }
}
