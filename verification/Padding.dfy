/** internal/middleware/padding/padding.go: [2B real_len LE][2B pad_len LE][real data][random padding]. */
module Padding {
  import opened Common
  import opened Streams

  const HEADER_SIZE: nat := 4
  const MAX_DATA: nat := 65535

  /** One frame on the wire: what it carries and the random bytes behind it. */
  datatype PadFrame = PadFrame(data: Bytes, pad: Bytes)

  /** The 16-bit header fields wrap, as uint16(len) does. */
  function FrameBytes(f: PadFrame): Bytes {
    PutU16LE(|f.data|) + PutU16LE(|f.pad|) + f.data + f.pad
  }

  function ParseFrame(s: Bytes): Parse<PadFrame> {
    if |s| < HEADER_SIZE then Short
    else
      var realLen, padLen := GetU16LE(s[..2]), GetU16LE(s[2..4]);
      if |s| < HEADER_SIZE + realLen + padLen then Short
      else Got(PadFrame(s[4..4 + realLen], s[4 + realLen..4 + realLen + padLen]), s[4 + realLen + padLen..])
  }

  const PAD_CODE: Code<PadFrame> := Code(FrameBytes, ParseFrame)

  predicate Fits(f: PadFrame) {
    |f.data| <= MAX_DATA && |f.pad| <= 65535
  }

  lemma HeaderFields(f: PadFrame, rest: Bytes)
    ensures var s := FrameBytes(f) + rest;
            && |s| >= HEADER_SIZE
            && GetU16LE(s[..2]) == |f.data| % 65536 && GetU16LE(s[2..4]) == |f.pad| % 65536
            && s[4..] == f.data + f.pad + rest
  {
    U16RoundTrip(|f.data|);
    U16RoundTrip(|f.pad|);
    var s := FrameBytes(f) + rest;
    assert s[..2] == PutU16LE(|f.data|) && s[2..4] == PutU16LE(|f.pad|);
  }

  lemma BodyFields(s: Bytes, data: Bytes, pad: Bytes, rest: Bytes)
    requires |s| >= 4 && s[4..] == data + pad + rest
    ensures var d, p := |data|, |pad|;
            && |s| >= 4 + d + p
            && s[4..4 + d] == data && s[4 + d..4 + d + p] == pad && s[4 + d + p..] == rest
  {
    var d, p, n := |data|, |pad|, |s|;
    SliceOfSlice(s, 4, n, 0, d);
    SliceOfSlice(s, 4, n, d, d + p);
    SliceOfSlice(s, 4, n, d + p, n - 4);
    assert s[4..n] == s[4..];
  }

  lemma ParseBack(f: PadFrame, rest: Bytes)
    ensures Fits(f) ==> ParseFrame(FrameBytes(f) + rest) == Got(f, rest)
    ensures |f.data| <= MAX_DATA && |f.pad| > 65535 ==> ParseFrame(FrameBytes(f) + rest) != Got(f, rest)
  {
    HeaderFields(f, rest);
    if Fits(f) {
      BodyFields(FrameBytes(f) + rest, f.data, f.pad, rest);
    }
  }

  /** The frame on the wire: both lengths low byte first, the data, the padding. */
  lemma WireBytes(f: PadFrame)
    ensures FrameBytes(f) == [|f.data| % 256, |f.data| / 256 % 256, |f.pad| % 256, |f.pad| / 256 % 256] + f.data + f.pad
  {
  }

  /** A frame comes back whole exactly when its padding fits the 16-bit field. */
  lemma FrameSurvivesExactly(f: PadFrame, rest: Bytes)
    requires |f.data| <= MAX_DATA
    ensures ParseFrame(FrameBytes(f) + rest) == Got(f, rest) <==> |f.pad| <= 65535
  {
    ParseBack(f, rest);
  }

  lemma PadAccepted(s: Bytes)
    requires ParseFrame(s).Got?
    ensures Fits(ParseFrame(s).value) && s == FrameBytes(ParseFrame(s).value) + ParseFrame(s).rest
  {
    U16Unique(s[..2]);
    U16Unique(s[2..4]);
    var f := ParseFrame(s).value;
    assert s == s[..2] + s[2..4] + f.data + f.pad + ParseFrame(s).rest;
  }

  lemma PadDelimits()
    ensures Delimits(PAD_CODE, Fits) && Accepts(PAD_CODE, Fits)
  {
    forall f, rest | Fits(f) ensures PAD_CODE.parse(PAD_CODE.enc(f) + rest) == Got(f, rest) {
      ParseBack(f, rest);
    }
    forall s: Bytes | PAD_CODE.parse(s).Got?
      ensures Fits(PAD_CODE.parse(s).value)
              && s == PAD_CODE.enc(PAD_CODE.parse(s).value) + PAD_CODE.parse(s).rest
    {
      PadAccepted(s);
    }
    forall f | Fits(f) ensures PAD_CODE.enc(f) != [] {
      assert |FrameBytes(f)| >= 4;
    }
    AcceptsDelimits(PAD_CODE, Fits);
  }

  /** The bytes a list of frames carries. */
  function Carried(fs: seq<PadFrame>): Bytes {
    if fs == [] then [] else fs[0].data + Carried(fs[1..])
  }

  lemma {:induction false} CarriedPrefix(fs: seq<PadFrame>, k: nat)
    requires k <= |fs|
    ensures Carried(fs[..k]) <= Carried(fs)
  {
    if k > 0 {
      assert fs[..k][1..] == fs[1..][..k - 1];
      CarriedPrefix(fs[1..], k - 1);
    }
  }

  lemma {:induction false} CarriedConcat(a: seq<PadFrame>, b: seq<PadFrame>)
    ensures Carried(a + b) == Carried(a) + Carried(b)
  {
    if a == [] {
      assert a + b == b;
    } else {
      assert (a + b)[1..] == a[1..] + b;
      CarriedConcat(a[1..], b);
    }
  }

  /** What Read gets out of a stream of frame bytes. */
  function Unpad(s: Bytes): Bytes {
    Carried(DecodeAll(PAD_CODE, s))
  }

  /** One write becomes one frame per piece of at most 65535 bytes, padded as the random source decides:
      the k-th frame of the connection gets pads(k). */
  function Framed(pieces: seq<Bytes>, pads: nat -> Bytes, from: nat): seq<PadFrame> {
    seq(|pieces|, i requires 0 <= i < |pieces| => PadFrame(pieces[i], pads(from + i)))
  }

  function FramesOf(writes: seq<Bytes>, pads: nat -> Bytes, from: nat): seq<PadFrame> {
    if writes == [] then []
    else
      var now := Framed(Cut(writes[0], MAX_DATA), pads, from);
      now + FramesOf(writes[1..], pads, from + |now|)
  }

  /** Every padding the configuration can ask for fits the header field. */
  ghost predicate SmallPads(pads: nat -> Bytes) {
    forall k :: |pads(k)| <= 65535
  }

  lemma {:induction false} FramedCarries(pieces: seq<Bytes>, pads: nat -> Bytes, from: nat)
    ensures Carried(Framed(pieces, pads, from)) == Flatten(pieces)
  {
    if pieces != [] {
      FramedCarries(pieces[1..], pads, from + 1);
      assert Framed(pieces, pads, from)[1..] == Framed(pieces[1..], pads, from + 1);
    }
  }

  lemma FramedFits(p: Bytes, pads: nat -> Bytes, from: nat)
    requires SmallPads(pads)
    ensures forall f :: f in Framed(Cut(p, MAX_DATA), pads, from) ==> Fits(f)
  {
    var pieces := Cut(p, MAX_DATA);
    CutPieces(p, MAX_DATA);
    forall f | f in Framed(pieces, pads, from) ensures Fits(f) {
      var i :| 0 <= i < |pieces| && f == PadFrame(pieces[i], pads(from + i));
    }
  }

  lemma {:induction false} FramesCarry(writes: seq<Bytes>, pads: nat -> Bytes, from: nat)
    requires SmallPads(pads)
    ensures Carried(FramesOf(writes, pads, from)) == Flatten(writes)
    ensures forall f :: f in FramesOf(writes, pads, from) ==> Fits(f)
  {
    if writes != [] {
      var pieces := Cut(writes[0], MAX_DATA);
      var now := Framed(pieces, pads, from);
      var later := FramesOf(writes[1..], pads, from + |now|);
      CutPieces(writes[0], MAX_DATA);
      FramedCarries(pieces, pads, from);
      FramedFits(writes[0], pads, from);
      FramesCarry(writes[1..], pads, from + |now|);
      CarriedConcat(now, later);
      assert FramesOf(writes, pads, from) == now + later;
    }
  }

  /** Whatever the padding, any received prefix of the wire unpads to a prefix of what was written, and all of the
      wire to all of it. */
  lemma PaddingRoundTrip(writes: seq<Bytes>, pads: nat -> Bytes, wire: Bytes)
    requires SmallPads(pads)
    requires wire <= EncodeAll(PAD_CODE, FramesOf(writes, pads, 0))
    ensures Unpad(wire) <= Flatten(writes)
    ensures wire == EncodeAll(PAD_CODE, FramesOf(writes, pads, 0)) ==> Unpad(wire) == Flatten(writes)
  {
    var fs := FramesOf(writes, pads, 0);
    PadDelimits();
    FramesCarry(writes, pads, 0);
    PrefixDecodes(PAD_CODE, Fits, fs, wire);
    var k := |DecodeAll(PAD_CODE, wire)|;
    assert DecodeAll(PAD_CODE, wire) == fs[..k];
    CarriedPrefix(fs, k);
  }

  // ---- Reading ----

  /** The leftover, and what of the wire has not been taken. */
  datatype Receiver = Receiver(rBuf: Bytes, wire: Bytes)

  /** One Read. When neither a leftover nor a whole frame is there it fails, and has used up the wire. */
  function Take(x: Receiver, room: nat): (Bytes, Receiver) {
    if x.rBuf != [] then
      var n := Min(room, |x.rBuf|);
      (x.rBuf[..n], Receiver(x.rBuf[n..], x.wire))
    else match ParseFrame(x.wire)
      case Got(f, rest) =>
        var n := Min(room, |f.data|);
        (f.data[..n], Receiver(f.data[n..], rest))
      case _ => ([], Receiver([], []))
  }

  /** Reads with buffers of these sizes, one after the other. */
  function TakeAll(x: Receiver, rooms: seq<nat>): (Bytes, Receiver) {
    if rooms == [] then ([], x)
    else
      var (data, x1) := TakeAll(x, rooms[..|rooms| - 1]);
      var (more, x2) := Take(x1, rooms[|rooms| - 1]);
      (data + more, x2)
  }

  lemma TakeKeeps(x: Receiver, room: nat)
    ensures var (data, x') := Take(x, room); data + (x'.rBuf + Unpad(x'.wire)) == x.rBuf + Unpad(x.wire)
  {
    UnpadStep(x.wire);
    var (data, x') := Take(x, room);
    if x.rBuf != [] {
      Rejoin(x.rBuf, |data|, Unpad(x.wire));
    } else if ParseFrame(x.wire).Got? {
      Rejoin(ParseFrame(x.wire).value.data, |data|, Unpad(x'.wire));
    } else {
      UnpadStep([]);
    }
  }

  lemma {:induction false} TakeAllKeeps(x: Receiver, rooms: seq<nat>)
    ensures var (data, x') := TakeAll(x, rooms); data + (x'.rBuf + Unpad(x'.wire)) == x.rBuf + Unpad(x.wire)
  {
    if rooms != [] {
      var n := |rooms| - 1;
      TakeAllKeeps(x, rooms[..n]);
      var (data, x1) := TakeAll(x, rooms[..n]);
      TakeKeeps(x1, rooms[n]);
      var (more, x2) := Take(x1, rooms[n]);
      Regroup(data, more, x2.rBuf + Unpad(x2.wire));
    }
  }

  lemma IsPrefix(a: Bytes, b: Bytes, whole: Bytes, longer: Bytes)
    requires a + b == whole && whole <= longer
    ensures a <= longer
  {
    assert a == whole[..|a|] == longer[..|a|];
  }

  /** For any writes, any padding, any part of the wire received, and any buffers, the reads one after the other and
      the leftover are a prefix of the writes. */
  lemma ReadsArePrefix(writes: seq<Bytes>, pads: nat -> Bytes, wire: Bytes, rooms: seq<nat>)
    requires SmallPads(pads) && wire <= EncodeAll(PAD_CODE, FramesOf(writes, pads, 0))
    ensures var (data, x) := TakeAll(Receiver([], wire), rooms); data + x.rBuf <= Flatten(writes)
  {
    PaddingRoundTrip(writes, pads, wire);
    TakeAllKeeps(Receiver([], wire), rooms);
    var (data, x) := TakeAll(Receiver([], wire), rooms);
    Regroup(data, x.rBuf, Unpad(x.wire));
    assert [] + Unpad(wire) == Unpad(wire);
    IsPrefix(data + x.rBuf, Unpad(x.wire), Unpad(wire), Flatten(writes));
  }

  /** The receiving half of paddingConn, over a stream cut anywhere. */
  class PaddingReader {
    const src: Source
    var rBuf: Bytes

    constructor (src: Source)
      ensures this.src == src && rBuf == []
    {
      this.src := src;
      this.rBuf := [];
    }

    ghost function View(): Receiver
      reads this, src
    {
      Receiver(rBuf, src.Rest())
    }

    /** All that is still to be read: the leftover and the whole frames to come. */
    ghost function Remaining(): Bytes
      reads this, src
    {
      rBuf + Unpad(src.Rest())
    }

    /** Each Read returns the next bytes of what remains, for any buffer and any segmentation; it fails only when
        neither a leftover nor a whole frame is there. */
    method Read(p: array<byte>) returns (n: nat, ok: bool)
      modifies this, src, p
      ensures n <= p.Length && p[n..] == old(p[n..])
      ensures (p[..n], View()) == Take(old(View()), p.Length)
      ensures p[..n] + Remaining() == old(Remaining())
      ensures ok <==> old(rBuf) != [] || old(ParseFrame(src.Rest()).Got?)
      ensures !ok ==> n == 0 && Remaining() == []
      ensures ok && old(rBuf) == [] ==> n == Min(p.Length, |ParseFrame(old(src.Rest())).value.data|)
      ensures ok && old(rBuf) != [] ==> n == Min(p.Length, |old(rBuf)|)
    {
      TakeKeeps(View(), p.Length);
      if |rBuf| > 0 {
        n := CopyTo(p, rBuf);
        rBuf := rBuf[n..];
        return n, true;
      }
      n, ok := ReadFresh(p);
    }

    method ReadFresh(p: array<byte>) returns (n: nat, ok: bool)
      requires rBuf == []
      modifies this, src, p
      ensures n <= p.Length && p[n..] == old(p[n..])
      ensures var f := ParseFrame(old(src.Rest()));
              if f.Got? then
                && ok && n == Min(p.Length, |f.value.data|) && p[..n] == f.value.data[..n]
                && rBuf == f.value.data[n..] && src.Rest() == f.rest
              else !ok && n == 0 && rBuf == [] && src.Rest() == []
    {
      var realData, got := ReadWhole();
      if !got {
        return 0, false;
      }
      n := CopyTo(p, realData);
      if n < |realData| {
        rBuf := realData[n..];
      }
      return n, true;
    }

    /** Header, then data and padding together; the padding is thrown away. */
    method ReadWhole() returns (realData: Bytes, ok: bool)
      modifies src
      ensures ok <==> ParseFrame(old(src.Rest())).Got?
      ensures ok ==> var f := ParseFrame(old(src.Rest())); realData == f.value.data && src.Rest() == f.rest
      ensures !ok ==> src.Rest() == []
    {
      ghost var stream := src.Rest();
      var header := new byte[HEADER_SIZE](_ => 0);
      var got := ReadFull(src, header, HEADER_SIZE);
      if !got {
        return [], false;
      }
      var realLen, padLen := GetU16LE(header[..2]), GetU16LE(header[2..4]);
      assert header[..2] == stream[..2] && header[2..4] == stream[2..4];
      var buf := new byte[realLen + padLen](_ => 0);
      got := ReadFull(src, buf, realLen + padLen);
      if !got {
        return [], false;
      }
      assert buf[..] == stream[HEADER_SIZE..][..realLen + padLen];
      assert buf[..realLen] == stream[HEADER_SIZE..HEADER_SIZE + realLen];
      return buf[..realLen], true;
    }
  }

  lemma Rejoin(s: Bytes, n: nat, more: Bytes)
    requires n <= |s|
    ensures s[..n] + (s[n..] + more) == s + more
  {
  }

  lemma Regroup(a: Bytes, b: Bytes, c: Bytes)
    ensures a + (b + c) == (a + b) + c
  {
  }

  lemma UnpadStep(stream: Bytes)
    ensures var f := ParseFrame(stream);
            Unpad(stream) == if f.Got? then f.value.data + Unpad(f.rest) else []
  {
    var f := ParseFrame(stream);
    if f.Got? {
      assert DecodeAll(PAD_CODE, stream) == [f.value] + DecodeAll(PAD_CODE, f.rest);
    }
  }

  /** The inner writes a list of frames causes. */
  function FrameWrites(fs: seq<PadFrame>): seq<Bytes> {
    if fs == [] then [] else FrameWrites(fs[..|fs| - 1]) + [FrameBytes(fs[|fs| - 1])]
  }

  /** The k-th inner write of a write carries its k-th piece, with the padding drawn for it. */
  lemma SentPiece(p: Bytes, pads: nat -> Bytes, from: nat, took: nat, k: nat)
    requires k < took <= |Cut(p, MAX_DATA)|
    ensures var ws := FrameWrites(Framed(Cut(p, MAX_DATA), pads, from)[..took]);
            |ws| == took && ws[k] == FrameBytes(PadFrame(Cut(p, MAX_DATA)[k], pads(from + k)))
  {
    FrameWritesAt(Framed(Cut(p, MAX_DATA), pads, from)[..took], k);
  }

  lemma {:induction false} FrameWritesAt(fs: seq<PadFrame>, k: nat)
    requires k < |fs|
    ensures |FrameWrites(fs)| == |fs| && FrameWrites(fs)[k] == FrameBytes(fs[k])
  {
    var n := |fs| - 1;
    if n == 0 {
      assert fs[..0] == [];
    } else {
      FrameWritesAt(fs[..n], if k < n then k else 0);
    }
  }

  lemma {:induction false} FrameWritesFlatten(fs: seq<PadFrame>)
    ensures Flatten(FrameWrites(fs)) == EncodeAll(PAD_CODE, fs)
  {
    if fs != [] {
      var n := |fs| - 1;
      FrameWritesFlatten(fs[..n]);
      FlattenSnoc(FrameWrites(fs[..n]), FrameBytes(fs[n]));
      assert fs == fs[..n] + [fs[n]];
      EncodeAllSnoc(PAD_CODE, fs[..n], fs[n]);
    }
  }

  /** The sending half. `sent` are the writes the inner conn accepted; the one numbered `failAt` of this call and all
      after it are refused. */
  class PaddingWriter {
    var sent: seq<Bytes>

    constructor ()
      ensures sent == []
    {
      sent := [];
    }

    method WriteFrame(data: Bytes, pad: Bytes, accepted: bool)
      requires |data| <= MAX_DATA
      modifies this
      ensures sent == if accepted then old(sent) + [FrameBytes(PadFrame(data, pad))] else old(sent)
    {
      var frame := new byte[HEADER_SIZE + |data| + |pad|](_ => 0);
      var realLen, padLen := PutU16LE(|data|), PutU16LE(|pad|);
      frame[0], frame[1] := realLen[0], realLen[1];
      frame[2], frame[3] := padLen[0], padLen[1];
      forall i | 0 <= i < |data| {
        frame[HEADER_SIZE + i] := data[i];
      }
      forall i | 0 <= i < |pad| {
        frame[HEADER_SIZE + |data| + i] := pad[i];
      }
      assert frame[..] == FrameBytes(PadFrame(data, pad));
      if accepted {
        sent := sent + [frame[..]];
      }
    }

    /** A write sends exactly the frames of its pieces, in order, up to the first refused one. A short write reports
        its full length even when its one frame was refused. */
    method Write(p: Bytes, pads: nat -> Bytes, from: nat, failAt: nat) returns (n: nat, ok: bool)
      modifies this
      ensures var fs := Framed(Cut(p, 65535), pads, from);
              var took := Min(failAt, |fs|);
              && sent == old(sent) + FrameWrites(fs[..took])
              && (ok <==> took == |fs|)
              && n == if |p| <= 65535 then |p| else |Carried(fs[..took])|
    {
      if |p| > MAX_DATA {
        n, ok := WriteLong(p, pads, from, failAt);
        return;
      }
      ghost var fs := Framed(Cut(p, MAX_DATA), pads, from);
      assert fs == [PadFrame(p, pads(from))];
      assert fs[..1][..0] == [] && fs[..0] == [];
      WriteFrame(p, pads(from), failAt > 0);
      return |p|, failAt > 0;
    }

    /** The split loop. */
    method WriteLong(p: Bytes, pads: nat -> Bytes, from: nat, failAt: nat) returns (written: nat, ok: bool)
      requires |p| > MAX_DATA
      modifies this
      ensures var fs := Framed(Cut(p, MAX_DATA), pads, from);
              var took := Min(failAt, |fs|);
              && sent == old(sent) + FrameWrites(fs[..took])
              && (ok <==> took == |fs|)
              && written == |Carried(fs[..took])|
    {
      ghost var fs := Framed(Cut(p, MAX_DATA), pads, from);
      var k := 0;
      written := 0;
      assert p[0..] == p && Cut(p, MAX_DATA)[0..] == Cut(p, MAX_DATA);
      while written < |p|
        invariant k <= failAt && SplitAt(p, pads, from, written, k)
        invariant sent == old(sent) + FrameWrites(fs[..k])
        decreases |p| - written
      {
        var end := written + MAX_DATA;
        if end > |p| {
          end := |p|;
        }
        SplitNext(p, pads, from, written, k);
        WriteFrame(p[written..end], pads(from + k), k < failAt);
        if k >= failAt {
          return written, false;
        }
        written := end;
        k := k + 1;
      }
      return |p|, true;
    }
  }

  /** The split loop has done with the first k frames, which carry the first `at` bytes. */
  ghost predicate SplitAt(p: Bytes, pads: nat -> Bytes, from: nat, at: nat, k: nat) {
    var pieces := Cut(p, MAX_DATA);
    && at <= |p| && k <= |pieces|
    && at == |Carried(Framed(pieces, pads, from)[..k])|
    && (if at < |p| then Cut(p[at..], MAX_DATA) == pieces[k..] else k == |pieces|)
  }

  lemma SplitNext(p: Bytes, pads: nat -> Bytes, from: nat, at: nat, k: nat)
    requires SplitAt(p, pads, from, at, k) && at < |p|
    ensures var end, fs := Min(at + MAX_DATA, |p|), Framed(Cut(p, MAX_DATA), pads, from);
            && k < |fs| && fs[k] == PadFrame(p[at..end], pads(from + k))
            && SplitAt(p, pads, from, end, k + 1)
            && FrameWrites(fs[..k + 1]) == FrameWrites(fs[..k]) + [FrameBytes(fs[k])]
  {
    NextPiece(p, at, Cut(p, MAX_DATA), k);
    CarriedSnoc(Framed(Cut(p, MAX_DATA), pads, from), k);
  }

  /** What is cut off next, and what is left to cut. */
  lemma NextPiece(p: Bytes, at: nat, pieces: seq<Bytes>, k: nat)
    requires at < |p| && k <= |pieces| && Cut(p[at..], MAX_DATA) == pieces[k..]
    ensures k < |pieces|
    ensures var end := Min(at + MAX_DATA, |p|);
            && pieces[k] == p[at..end]
            && (if end < |p| then Cut(p[end..], MAX_DATA) == pieces[k + 1..] else k + 1 == |pieces|)
  {
    var rest := p[at..];
    assert pieces[k] == pieces[k..][0];
    if |rest| <= MAX_DATA {
      assert p[at..|p|] == rest;
    } else {
      assert rest[..MAX_DATA] == p[at..at + MAX_DATA] && rest[MAX_DATA..] == p[at + MAX_DATA..];
      assert pieces[k..][1..] == pieces[k + 1..];
    }
  }

  lemma CarriedSnoc(fs: seq<PadFrame>, k: nat)
    requires k < |fs|
    ensures Carried(fs[..k + 1]) == Carried(fs[..k]) + fs[k].data
    ensures FrameWrites(fs[..k + 1]) == FrameWrites(fs[..k]) + [FrameBytes(fs[k])]
  {
    assert fs[..k + 1] == fs[..k] + [fs[k]];
    CarriedConcat(fs[..k], [fs[k]]);
    assert Carried([fs[k]]) == fs[k].data + Carried([]);
    assert fs[..k + 1][..k] == fs[..k];
  }
}
