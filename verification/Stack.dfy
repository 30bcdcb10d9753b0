/** internal/middleware/middleware.go and the stack it builds over the split-HTTP pipe. */
module Stack {
  import opened Common
  import opened Streams
  import Padding
  import Framing
  import UploadSystem
  import DownloadSystem

  /** The middlewares: padding draws its random bytes from pads; jitter and shaping pass every byte through. */
  datatype Middleware = PaddingLayer(pads: nat -> Bytes) | PassLayer

  datatype Conn = Base | Wrapped(outer: Middleware, inner: Conn)

  /** The writes that reach the base connection when ws are written on top. */
  function Sent(c: Conn, ws: seq<Bytes>): seq<Bytes> {
    match c
    case Base => ws
    case Wrapped(PassLayer, inner) => Sent(inner, ws)
    case Wrapped(PaddingLayer(pads), inner) => Sent(inner, Padding.FrameWrites(Padding.FramesOf(ws, pads, 0)))
  }

  /** The bytes that can be read on top once the base connection has delivered x. */
  function Readable(c: Conn, x: Bytes): Bytes {
    match c
    case Base => x
    case Wrapped(PassLayer, inner) => Readable(inner, x)
    case Wrapped(PaddingLayer(_), inner) => Padding.Unpad(Readable(inner, x))
  }

  function WrapAll(chain: seq<Middleware>, c: Conn): Conn {
    if chain == [] then c else Wrapped(chain[|chain| - 1], WrapAll(chain[..|chain| - 1], c))
  }

  /** Chain.Wrap's loop: the last middleware of the list ends up outermost. */
  method Wrap(chain: seq<Middleware>, base: Conn) returns (conn: Conn)
    ensures conn == WrapAll(chain, base)
    ensures chain != [] ==> conn.Wrapped? && conn.outer == chain[|chain| - 1]
  {
    conn := base;
    for i := 0 to |chain|
      invariant conn == WrapAll(chain[..i], base)
    {
      assert chain[..i + 1][..i] == chain[..i];
      conn := Wrapped(chain[i], conn);
    }
    assert chain[..|chain|] == chain;
  }

  /** Both ends are configured with the same list; each draws its own padding, within the 16-bit field. */
  ghost predicate SameChain(a: seq<Middleware>, b: seq<Middleware>) {
    && |a| == |b|
    && forall i :: 0 <= i < |a| ==>
         (a[i].PaddingLayer? <==> b[i].PaddingLayer?)
         && (a[i].PaddingLayer? ==> Padding.SmallPads(a[i].pads))
  }

  /** Wrapping keeps delivery: if the base connection has delivered a prefix of what reached it, the top can read a
      prefix of what was written on top, and all of it once the base has delivered all. */
  lemma {:induction false} StackDelivers(near: seq<Middleware>, far: seq<Middleware>, ws: seq<Bytes>, x: Bytes)
    requires SameChain(near, far)
    requires x <= Flatten(Sent(WrapAll(near, Base), ws))
    ensures Readable(WrapAll(far, Base), x) <= Flatten(ws)
    ensures x == Flatten(Sent(WrapAll(near, Base), ws)) ==> Readable(WrapAll(far, Base), x) == Flatten(ws)
    decreases |near|
  {
    if near != [] {
      var n := |near| - 1;
      if near[n].PassLayer? {
        StackDelivers(near[..n], far[..n], ws, x);
      } else {
        var fs := Padding.FramesOf(ws, near[n].pads, 0);
        Padding.FrameWritesFlatten(fs);
        StackDelivers(near[..n], far[..n], Padding.FrameWrites(fs), x);
        Padding.PaddingRoundTrip(ws, near[n].pads, Readable(WrapAll(far[..n], Base), x));
      }
    }
  }

  /** Frames written through the stack are read back as a prefix of the same frames. */
  lemma FramesThroughStack(near: seq<Middleware>, far: seq<Middleware>, fs: seq<Framing.Frame>, ws: seq<Bytes>, x: Bytes)
    requires SameChain(near, far) && (forall f :: f in fs ==> Framing.Fits(f))
    requires Flatten(ws) == EncodeAll(Framing.FRAME_CODE, fs)
    requires x <= Flatten(Sent(WrapAll(near, Base), ws))
    ensures DecodeAll(Framing.FRAME_CODE, Readable(WrapAll(far, Base), x)) <= fs
    ensures x == Flatten(Sent(WrapAll(near, Base), ws)) ==>
              DecodeAll(Framing.FRAME_CODE, Readable(WrapAll(far, Base), x)) == fs
  {
    StackDelivers(near, far, ws, x);
    Framing.FramesSurvive(fs, Readable(WrapAll(far, Base), x));
  }

  /** The whole upload path. At every moment of every run in which the client is writing a list of frames through its
      middlewares, and may be anywhere in it, or inside a frame, or never finish, whatever the network does to the POSTs and whatever buffers the reader uses, the server's frame
      reader sees a prefix of that list. */
  lemma UploadOfFrames(steps: seq<UploadSystem.Step>, maxChunk: nat, serverMax: nat,
                       near: seq<Middleware>, far: seq<Middleware>, fs: seq<Framing.Frame>, ws: seq<Bytes>)
    requires 0 < maxChunk <= serverMax + 1024
    requires SameChain(near, far) && (forall f :: f in fs ==> Framing.Fits(f))
    requires Flatten(ws) == EncodeAll(Framing.FRAME_CODE, fs)
    requires UploadSystem.Reach(steps, maxChunk, serverMax).written <= Flatten(Sent(WrapAll(near, Base), ws))
    ensures var s := UploadSystem.Reach(steps, maxChunk, serverMax);
            && DecodeAll(Framing.FRAME_CODE, Readable(WrapAll(far, Base), s.readPacket)) <= fs
            && (s.readPacket == Flatten(Sent(WrapAll(near, Base), ws)) ==>
                  DecodeAll(Framing.FRAME_CODE, Readable(WrapAll(far, Base), s.readPacket)) == fs)
  {
    UploadSystem.UploadSafety(steps, maxChunk, serverMax);
    var s := UploadSystem.Reach(steps, maxChunk, serverMax);
    assert s.readPacket <= s.readPacket + s.leftover <= s.written;
    FramesThroughStack(near, far, fs, ws, s.readPacket);
  }

  /** The whole download path, at every moment, under dropped responses, stray handlers and reconnects, and with a
      session that may be closed anywhere, even inside a frame. */
  lemma DownloadOfFrames(steps: seq<DownloadSystem.Step>, maxRetain: int,
                         near: seq<Middleware>, far: seq<Middleware>, fs: seq<Framing.Frame>, ws: seq<Bytes>)
    requires SameChain(near, far) && (forall f :: f in fs ==> Framing.Fits(f))
    requires Flatten(ws) == EncodeAll(Framing.FRAME_CODE, fs)
    requires DownloadSystem.Reach(steps, maxRetain).log.bytes <= Flatten(Sent(WrapAll(near, Base), ws))
    ensures var s := DownloadSystem.Reach(steps, maxRetain);
            && DecodeAll(Framing.FRAME_CODE, Readable(WrapAll(far, Base), s.returned)) <= fs
            && (s.returned == Flatten(Sent(WrapAll(near, Base), ws)) ==>
                  DecodeAll(Framing.FRAME_CODE, Readable(WrapAll(far, Base), s.returned)) == fs)
  {
    DownloadSystem.DownloadSafety(steps, maxRetain);
    var s := DownloadSystem.Reach(steps, maxRetain);
    assert s.returned <= s.log.bytes;
    FramesThroughStack(near, far, fs, ws, s.returned);
  }
}
