/** Byte streams that arrive in arbitrary pieces, io.ReadFull over them, and codes that mark their own ends. */
module Streams {
  import opened Common

  /** A reader whose bytes arrive in segments of the network's choosing; after the last one comes EOF. */
  class Source {
    var segs: seq<Bytes>

    constructor (segs: seq<Bytes>)
      ensures this.segs == segs
    {
      this.segs := segs;
    }

    ghost function Rest(): Bytes
      reads this
    {
      Flatten(segs)
    }

    /** One Read: at most what fits, at most one segment. */
    method Read(buf: array<byte>, lo: nat, hi: nat) returns (n: nat, eof: bool)
      requires lo <= hi <= buf.Length
      modifies this, buf
      ensures eof ==> n == 0 && old(segs) == [] && segs == []
      ensures n <= hi - lo && buf[..lo] == old(buf[..lo]) && buf[lo + n..] == old(buf[lo + n..])
      ensures buf[lo..lo + n] + Rest() == old(Rest())
      ensures !eof && n == 0 && lo < hi ==> |segs| < |old(segs)|
      ensures |segs| <= |old(segs)|
    {
      if segs == [] {
        return 0, true;
      }
      n := Min(hi - lo, |segs[0]|);
      eof := false;
      ghost var all := Rest();
      ghost var first := segs[0];
      forall i | 0 <= i < n {
        buf[lo + i] := segs[0][i];
      }
      assert buf[lo..lo + n] == first[..n];
      if n == |segs[0]| {
        segs := segs[1..];
      } else {
        segs := segs[0 := segs[0][n..]];
        assert Rest() == first[n..] + Flatten(segs[1..]);
      }
      assert first == first[..n] + first[n..];
    }
  }

  /** io.ReadFull: succeeds exactly when n more bytes ever arrive, however they are cut, and takes exactly those. */
  method ReadFull(src: Source, buf: array<byte>, n: nat) returns (ok: bool)
    requires n <= buf.Length
    modifies src, buf
    ensures ok <==> |old(src.Rest())| >= n
    ensures ok ==> buf[..n] == old(src.Rest())[..n] && src.Rest() == old(src.Rest())[n..]
    ensures !ok ==> src.Rest() == []
    ensures buf[n..] == old(buf[n..])
  {
    var got := 0;
    while got < n
      invariant got <= n
      invariant buf[..got] + src.Rest() == old(src.Rest())
      invariant buf[n..] == old(buf[n..])
      decreases n - got, |src.segs|
    {
      ghost var before := buf[..got];
      ghost var after := buf[n..];
      ghost var rest := src.Rest();
      var k, eof := src.Read(buf, got, n);
      assert buf[..got + k] == before + buf[got..got + k];
      assert buf[n..] == after;
      if eof {
        return false;
      }
      assert before + rest == buf[..got + k] + src.Rest();
      got := got + k;
    }
    return true;
  }

  /** What a writer takes of a list of writes when it accepts the first few, and only a part of the next. */
  function Taken(ws: seq<Bytes>, accepts: nat, part: nat): seq<Bytes> {
    if accepts >= |ws| then ws else ws[..accepts] + [ws[accepts][..Min(part, |ws[accepts]|)]]
  }

  lemma TakenPrefix(ws: seq<Bytes>, accepts: nat, part: nat)
    ensures Flatten(Taken(ws, accepts, part)) <= Flatten(ws)
  {
    if accepts < |ws| {
      var w := ws[accepts];
      FlattenSnoc(ws[..accepts], w[..Min(part, |w|)]);
      FlattenSnoc(ws[..accepts], w);
      assert ws[..accepts + 1] == ws[..accepts] + [w];
      FlattenPrefix(ws, accepts + 1);
      assert Flatten(ws[..accepts]) + w[..Min(part, |w|)] <= Flatten(ws[..accepts]) + w;
    }
  }

  // ---- Self-delimiting codes ----

  datatype Parse<+T> = Short | Bad | Got(value: T, rest: Bytes)

  /** A way to write values and a way to take one value off the front of a stream. */
  datatype Code<!T> = Code(enc: T -> Bytes, parse: Bytes -> Parse<T>)

  /** Off a stream that starts with an encoded value the parser takes that value and nothing more; given only part of
      an encoded value it yields none. */
  ghost predicate Delimits<T(!new)>(c: Code<T>, fits: T -> bool) {
    && ParsesBack(c, fits)
    && (forall t: T, k: nat :: fits(t) && k < |c.enc(t)| ==> !c.parse(c.enc(t)[..k]).Got?)
    && (forall t: T :: fits(t) ==> c.enc(t) != [])
  }

  /** The parser accepts nothing that the encoder does not produce. */
  ghost predicate Accepts<T(!new)>(c: Code<T>, fits: T -> bool) {
    forall s: Bytes :: c.parse(s).Got? ==> fits(c.parse(s).value) && s == c.enc(c.parse(s).value) + c.parse(s).rest
  }

  ghost predicate ParsesBack<T(!new)>(c: Code<T>, fits: T -> bool) {
    forall t: T, rest: Bytes :: fits(t) ==> c.parse(c.enc(t) + rest) == Got(t, rest)
  }

  /** What is parsed off s is parsed off any longer stream. */
  lemma GotExtends<T(!new)>(c: Code<T>, fits: T -> bool, s: Bytes, more: Bytes)
    requires Accepts(c, fits) && ParsesBack(c, fits)
    ensures c.parse(s).Got? ==> c.parse(s + more) == Got(c.parse(s).value, c.parse(s).rest + more)
  {
    if c.parse(s).Got? {
      var t, rest := c.parse(s).value, c.parse(s).rest;
      assert s + more == c.enc(t) + (rest + more);
    }
  }

  /** A code whose values parse back and whose parser accepts only them delimits its values. */
  lemma AcceptsDelimits<T(!new)>(c: Code<T>, fits: T -> bool)
    requires Accepts(c, fits) && ParsesBack(c, fits)
    requires forall t: T :: fits(t) ==> c.enc(t) != []
    ensures Delimits(c, fits)
  {
    forall t: T, k: nat | fits(t) && k < |c.enc(t)| ensures !c.parse(c.enc(t)[..k]).Got? {
      var e := c.enc(t);
      GotExtends(c, fits, e[..k], e[k..]);
      assert e[..k] + e[k..] == e == e + [];
      assert c.parse(e + []) == Got(t, []);
    }
  }

  function EncodeAll<T>(c: Code<T>, ts: seq<T>): Bytes {
    if ts == [] then [] else c.enc(ts[0]) + EncodeAll(c, ts[1..])
  }

  lemma {:induction false} EncodeAllSnoc<T>(c: Code<T>, ts: seq<T>, t: T)
    ensures EncodeAll(c, ts + [t]) == EncodeAll(c, ts) + c.enc(t)
  {
    if ts == [] {
      assert EncodeAll(c, [t][1..]) == [];
    } else {
      assert (ts + [t])[1..] == ts[1..] + [t];
      EncodeAllSnoc(c, ts[1..], t);
    }
  }

  /** Read values until the stream no longer holds a whole one. */
  function DecodeAll<T>(c: Code<T>, s: Bytes): seq<T>
    decreases |s|
  {
    match c.parse(s)
    case Got(t, rest) => if |rest| < |s| then [t] + DecodeAll(c, rest) else []
    case _ => []
  }

  lemma DecodesFirst<T(!new)>(c: Code<T>, fits: T -> bool, t: T, rest: Bytes)
    requires Delimits(c, fits) && fits(t)
    ensures DecodeAll(c, c.enc(t) + rest) == [t] + DecodeAll(c, rest)
  {
    assert c.parse(c.enc(t) + rest) == Got(t, rest);
  }

  /** x holds exactly the first j of the encoded values whole. */
  ghost predicate HoldsWhole<T>(c: Code<T>, ts: seq<T>, x: Bytes, j: nat) {
    && j <= |ts|
    && |EncodeAll(c, ts[..j])| <= |x|
    && (j < |ts| ==> |x| < |EncodeAll(c, ts[..j + 1])|)
  }

  lemma HoldsOneMore<T>(c: Code<T>, ts: seq<T>, y: Bytes, j: nat)
    requires ts != [] && HoldsWhole(c, ts[1..], y, j)
    ensures HoldsWhole(c, ts, c.enc(ts[0]) + y, j + 1)
  {
    var tail := ts[1..];
    assert ts[..j + 1][1..] == tail[..j];
    if j < |tail| {
      assert ts[..j + 2][1..] == tail[..j + 1];
    }
  }

  /** Any prefix of an encoded list decodes to exactly the values it holds whole, and the whole to the whole. */
  lemma {:induction false} PrefixDecodes<T(!new)>(c: Code<T>, fits: T -> bool, ts: seq<T>, x: Bytes)
    requires Delimits(c, fits) && (forall t :: t in ts ==> fits(t))
    requires x <= EncodeAll(c, ts)
    ensures var j := |DecodeAll(c, x)|;
            HoldsWhole(c, ts, x, j) && DecodeAll(c, x) == ts[..j]
    ensures x == EncodeAll(c, ts) ==> DecodeAll(c, x) == ts
    decreases |ts|
  {
    if ts == [] {
      assert x == [];
      if c.parse(x).Got? {
        assert |c.parse(x).rest| >= |x|;
      }
    } else {
      var e, tail := c.enc(ts[0]), ts[1..];
      if |x| < |e| {
        assert x == e[..|x|];
        assert EncodeAll(c, ts[..1]) == e + EncodeAll(c, ts[..1][1..]);
      } else {
        var y := x[|e|..];
        assert x == e + y;
        assert y <= EncodeAll(c, tail);
        DecodesFirst(c, fits, ts[0], y);
        PrefixDecodes(c, fits, tail, y);
        HoldsOneMore(c, ts, y, |DecodeAll(c, y)|);
        assert ts == [ts[0]] + tail;
      }
    }
  }

  lemma {:induction false} EncodeAllGrows<T>(c: Code<T>, ts: seq<T>, i: nat, j: nat)
    requires i <= j <= |ts|
    ensures |EncodeAll(c, ts[..i])| <= |EncodeAll(c, ts[..j])|
  {
    if i > 0 {
      assert ts[..i][1..] == ts[1..][..i - 1] && ts[..j][1..] == ts[1..][..j - 1];
      EncodeAllGrows(c, ts[1..], i - 1, j - 1);
    }
  }

  /** One step of DecodeAll. */
  lemma DecodeStep<T>(c: Code<T>, s: Bytes)
    ensures c.parse(s).Got? && |c.parse(s).rest| < |s| ==>
              DecodeAll(c, s) == [c.parse(s).value] + DecodeAll(c, c.parse(s).rest)
    ensures !c.parse(s).Got? ==> DecodeAll(c, s) == []
  {
  }
}
