/** internal/protocol/framing.go, the frame layer: [2B length LE][1B type][payload], length counting the type byte. */
module Framing {
  import opened Common
  import opened Streams

  const MAX_FRAME_SIZE: nat := 65535
  const HEADER_SIZE: nat := 3

  datatype Frame = Frame(kind: byte, payload: Bytes)

  predicate Fits(f: Frame) {
    1 + |f.payload| <= 65535
  }

  function Encode(f: Frame): Bytes {
    PutU16LE(1 + |f.payload|) + [f.kind] + f.payload
  }

  function Parse1(s: Bytes): Parse<Frame> {
    if |s| < HEADER_SIZE then Short
    else
      var totalLen := GetU16LE(s[..2]);
      if totalLen < 1 then Bad
      else if |s| < HEADER_SIZE + (totalLen - 1) then Short
      else Got(Frame(s[2], s[3..3 + (totalLen - 1)]), s[3 + (totalLen - 1)..])
  }

  const FRAME_CODE: Code<Frame> := Code(Encode, Parse1)

  /** The frame on the wire: a length that counts the type byte, low byte first, the type, the payload. */
  lemma WireBytes(f: Frame)
    ensures Encode(f) == [(|f.payload| + 1) % 256, (|f.payload| + 1) / 256 % 256, f.kind] + f.payload
  {
  }

  /** A length of zero is refused, whatever follows. */
  lemma ZeroLengthIsBad(s: Bytes)
    requires |s| >= 3 && s[0] == 0 && s[1] == 0
    ensures Parse1(s) == Bad
  {
  }

  lemma ParseBack(f: Frame, rest: Bytes)
    requires Fits(f)
    ensures Parse1(Encode(f) + rest) == Got(f, rest)
  {
    var s, k := Encode(f) + rest, |f.payload|;
    U16RoundTrip(1 + k);
    assert s[..2] == PutU16LE(1 + k) && s[3..3 + k] == f.payload && s[3 + k..] == rest;
  }

  /** Whatever ReadFrame accepts is byte for byte what WriteFrame emits for the frame it returns. */
  lemma AcceptedIsEmitted(s: Bytes)
    requires Parse1(s).Got?
    ensures Fits(Parse1(s).value) && s == Encode(Parse1(s).value) + Parse1(s).rest
  {
    U16Unique(s[..2]);
    var f := Parse1(s).value;
    assert s == s[..2] + [s[2]] + f.payload + Parse1(s).rest;
  }

  lemma FrameDelimits()
    ensures Delimits(FRAME_CODE, Fits) && Accepts(FRAME_CODE, Fits)
  {
    forall f, rest | Fits(f) ensures FRAME_CODE.parse(FRAME_CODE.enc(f) + rest) == Got(f, rest) {
      ParseBack(f, rest);
    }
    forall s: Bytes | FRAME_CODE.parse(s).Got?
      ensures Fits(FRAME_CODE.parse(s).value)
              && s == FRAME_CODE.enc(FRAME_CODE.parse(s).value) + FRAME_CODE.parse(s).rest
    {
      AcceptedIsEmitted(s);
    }
    forall f | Fits(f) ensures FRAME_CODE.enc(f) != [] {
      assert |Encode(f)| >= 3;
    }
    AcceptsDelimits(FRAME_CODE, Fits);
  }

  /** Any received prefix of a written list of frames reads back as a prefix of the list. */
  lemma FramesSurvive(fs: seq<Frame>, wire: Bytes)
    requires (forall f :: f in fs ==> Fits(f)) && wire <= EncodeAll(FRAME_CODE, fs)
    ensures DecodeAll(FRAME_CODE, wire) <= fs
    ensures wire == EncodeAll(FRAME_CODE, fs) ==> DecodeAll(FRAME_CODE, wire) == fs
  {
    FrameDelimits();
    PrefixDecodes(FRAME_CODE, Fits, fs, wire);
  }

  /** The writes of a frame: its header, and its payload if there is one. */
  function Writes(f: Frame): seq<Bytes> {
    [PutU16LE(1 + |f.payload|) + [f.kind]] + if f.payload == [] then [] else [f.payload]
  }

  lemma WritesEncode(f: Frame)
    ensures Flatten(Writes(f)) == Encode(f)
  {
    var header := PutU16LE(1 + |f.payload|) + [f.kind];
    FlattenSnoc([], header);
    FlattenSnoc([header], f.payload);
  }

  /** WriteFrame onto a writer that accepts that many writes, and a part of the next: it writes nothing of a frame that
      is too large, stops at the first write that fails, and what has gone out is a prefix of the encoding, all of it
      exactly when it reports success. */
  method WriteFrame(f: Frame, accepts: nat, part: nat) returns (writes: seq<Bytes>, ok: bool)
    ensures ok <==> 1 + |f.payload| <= 65535 && accepts >= |Writes(f)|
    ensures writes == if Fits(f) then Taken(Writes(f), accepts, part) else []
    ensures Flatten(writes) <= Encode(f) && (ok ==> Flatten(writes) == Encode(f))
  {
    WritesEncode(f);
    TakenPrefix(Writes(f), accepts, part);
    var totalLen := 1 + |f.payload|;
    if totalLen > MAX_FRAME_SIZE {
      return [], false;
    }
    var header := new byte[HEADER_SIZE](_ => 0);
    var len := PutU16LE(totalLen);
    header[0], header[1] := len[0], len[1];
    header[2] := f.kind;
    assert header[..] == len + [f.kind] == Writes(f)[0];
    if accepts < 1 {
      return [header[..Min(part, HEADER_SIZE)]], false;
    }
    writes := [header[..]];
    if |f.payload| > 0 {
      if accepts < 2 {
        return writes + [f.payload[..Min(part, |f.payload|)]], false;
      }
      writes := writes + [f.payload];
    }
    return writes, true;
  }

  /** Reads one frame off a stream that is cut anywhere; the checks in between fail exactly as the parser says. */
  method ReadFrame(src: Source) returns (f: Frame, ok: bool)
    modifies src
    ensures ok <==> Parse1(old(src.Rest())).Got?
    ensures ok ==> Got(f, src.Rest()) == Parse1(old(src.Rest()))
    ensures Parse1(old(src.Rest())).Short? ==> src.Rest() == []
  {
    ghost var stream := src.Rest();
    f := Frame(0, []);
    var header := new byte[HEADER_SIZE](_ => 0);
    var got := ReadFull(src, header, HEADER_SIZE);
    if !got {
      return f, false;
    }
    var totalLen := GetU16LE(header[..2]);
    assert header[..2] == stream[..2] && header[2] == stream[..3][2] == stream[2];
    if totalLen < 1 {
      return f, false;
    }
    if totalLen > MAX_FRAME_SIZE {
      assert false;
    }
    var payloadLen := totalLen - 1;
    var payload := new byte[payloadLen](_ => 0);
    if payloadLen > 0 {
      got := ReadFull(src, payload, payloadLen);
      if !got {
        return f, false;
      }
      assert payload[..] == payload[..payloadLen] == stream[3..][..payloadLen];
    }
    assert payload[..] == stream[3..3 + payloadLen];
    assert src.Rest() == stream[3 + payloadLen..];
    f := Frame(header[2], payload[..]);
    return f, true;
  }
}
