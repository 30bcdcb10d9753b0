/** internal/protocol/udp.go: datagrams on the tunnel stream, [2B total_len LE][addr][payload]. */
module Udp {
  import opened Common
  import opened Streams
  import opened Addresses

  const MAX_TOTAL: nat := 65535
  const MIN_TOTAL: nat := 4

  datatype Message = Message(target: Target, payload: Bytes)

  /** The library's IPv6 text: parsing (when it is not IPv4) and printing. */
  datatype Six = Six(parse: Bytes -> Option<Bytes>, text: Bytes -> Bytes)

  function EncodeAddr(t: Target, quad: Recogniser, six: Six): Bytes {
    match quad(t.host)
    case Some(q) => [ADDR_IPV4] + Octets(q) + PutU16BE(t.port)
    case None =>
      var ip := six.parse(t.host);
      if ip.Some? && |ip.value| == 16 then [ADDR_IPV6] + ip.value + PutU16BE(t.port)
      else [ADDR_DOMAIN] + NameField(t.host) + PutU16BE(t.port)
  }

  /** The address and how many bytes it took. */
  function DecodeAddr(data: Bytes, six: Six): (r: Option<(Target, nat)>)
    ensures r.Some? ==> r.value.1 <= |data|
  {
    if |data| < 1 then None
    else if data[0] == ADDR_IPV4 then
      if |data| < 7 then None else Some((Target(Dotted(Quad(data[1], data[2], data[3], data[4])), GetU16BE(data[5..7])), 7))
    else if data[0] == ADDR_IPV6 then
      if |data| < 19 then None else Some((Target(six.text(data[1..17]), GetU16BE(data[17..19])), 19))
    else if data[0] == ADDR_DOMAIN then
      if |data| < 2 then None
      else
        var nameLen: int := data[1];
        if |data| < 2 + nameLen + 2 then None
        else Some((Target(data[2..2 + nameLen], GetU16BE(data[2 + nameLen..2 + nameLen + 2])), 2 + nameLen + 2))
    else None
  }

  /** The host comes back as it was given. */
  predicate Plain6(host: Bytes, quad: Recogniser, six: Six) {
    match quad(host)
    case Some(q) => host == Dotted(q)
    case None =>
      var ip := six.parse(host);
      if ip.Some? && |ip.value| == 16 then six.text(ip.value) == host else |host| <= MAX_NAME
  }

  lemma SixFields(ip: Bytes, port: u16, more: Bytes)
    requires |ip| == 16
    ensures var e := [ADDR_IPV6] + ip + PutU16BE(port) + more;
            e[1..17] == ip && GetU16BE(e[17..19]) == port && e[19..] == more
  {
    U16RoundTrip(port);
    var e := [ADDR_IPV6] + ip + PutU16BE(port) + more;
    assert e[17..19] == PutU16BE(port);
  }

  /** With any payload behind it, an address decodes to itself and its own length exactly when its host is plain. */
  lemma AddrExactly(t: Target, payload: Bytes, quad: Recogniser, six: Six)
    ensures DecodeAddr(EncodeAddr(t, quad, six) + payload, six) == Some((t, |EncodeAddr(t, quad, six)|))
            <==> Plain6(t.host, quad, six)
  {
    match quad(t.host)
    case Some(q) => QuadFields(q, t.port, payload);
    case None =>
      var ip := six.parse(t.host);
      if ip.Some? && |ip.value| == 16 {
        SixFields(ip.value, t.port, payload);
      } else {
        NameFields(t.host, t.port, payload);
      }
  }

  function Encode(m: Message, quad: Recogniser, six: Six): Bytes {
    var addr := EncodeAddr(m.target, quad, six);
    PutU16LE(|addr| + |m.payload|) + addr + m.payload
  }

  function Parse1(s: Bytes, six: Six): Parse<Message> {
    if |s| < 2 then Short
    else
      var totalLen := GetU16LE(s[..2]);
      if totalLen < MIN_TOTAL then Bad
      else if |s| < 2 + totalLen then Short
      else
        var body := s[2..2 + totalLen];
        var addr := DecodeAddr(body, six);
        if addr.None? then Bad else Got(Message(addr.value.0, body[addr.value.1..]), s[2 + totalLen..])
  }

  function MessageCode(quad: Recogniser, six: Six): Code<Message> {
    Code((m: Message) => Encode(m, quad, six), (s: Bytes) => Parse1(s, six))
  }

  predicate Fits(m: Message, quad: Recogniser, six: Six) {
    |EncodeAddr(m.target, quad, six)| + |m.payload| <= 65535 && Plain6(m.target.host, quad, six)
  }

  /** The datagram on the wire: its length without the length field, low byte first; the address; the payload. */
  lemma WireBytes(m: Message, quad: Recogniser, six: Six)
    ensures var addr, port := EncodeAddr(m.target, quad, six), m.target.port;
            var n := |addr| + |m.payload|;
            && Encode(m, quad, six) == [n % 256, n / 256 % 256] + addr + m.payload
            && (quad(m.target.host).Some? ==>
                  var q := quad(m.target.host).value; addr == [1, q.a, q.b, q.c, q.d, port / 256, port % 256])
            && (quad(m.target.host).None? ==>
                  var ip := six.parse(m.target.host);
                  if ip.Some? && |ip.value| == 16 then addr == [4] + ip.value + [port / 256, port % 256]
                  else addr == [3, |m.target.host| % 256] + m.target.host + [port / 256, port % 256])
  {
  }

  /** Over every byte string: a length below 4 is refused, a body that is not there is waited for, and otherwise the
      datagram is taken exactly if its address decodes. */
  lemma ParsesExactly(s: Bytes, six: Six)
    ensures |s| < 2 ==> Parse1(s, six) == Short
    ensures |s| >= 2 ==>
              var n := s[0] as int + 256 * s[1] as int;
              && (n < 4 ==> Parse1(s, six) == Bad)
              && (n >= 4 && |s| < 2 + n ==> Parse1(s, six) == Short)
              && (n >= 4 && |s| >= 2 + n ==>
                    var addr := DecodeAddr(s[2..2 + n], six);
                    if addr.None? then Parse1(s, six) == Bad
                    else Parse1(s, six) == Got(Message(addr.value.0, s[2 + addr.value.1..2 + n]), s[2 + n..]))
  {
    if |s| >= 2 {
      var n := s[0] as int + 256 * s[1] as int;
      assert GetU16LE(s[..2]) == n;
      if n >= 4 && |s| >= 2 + n && DecodeAddr(s[2..2 + n], six).Some? {
        SliceOfSlice(s, 2, 2 + n, DecodeAddr(s[2..2 + n], six).value.1, n);
      }
    }
  }

  lemma Opens(body: Bytes, rest: Bytes)
    requires |body| <= MAX_TOTAL
    ensures var s := PutU16LE(|body|) + body + rest;
            && |s| >= 2 + |body| && GetU16LE(s[..2]) == |body|
            && s[2..2 + |body|] == body && s[2 + |body|..] == rest
  {
    U16RoundTrip(|body|);
    assert (PutU16LE(|body|) + body + rest)[..2] == PutU16LE(|body|);
  }

  lemma ParseBack(m: Message, rest: Bytes, quad: Recogniser, six: Six)
    requires Fits(m, quad, six)
    ensures Parse1(Encode(m, quad, six) + rest, six) == Got(m, rest)
  {
    var addr := EncodeAddr(m.target, quad, six);
    AddrExactly(m.target, m.payload, quad, six);
    Opens(addr + m.payload, rest);
    assert Encode(m, quad, six) == PutU16LE(|addr + m.payload|) + (addr + m.payload);
    assert (addr + m.payload)[|addr|..] == m.payload;
  }

  lemma ShortOf(body: Bytes, k: nat, six: Six)
    requires MIN_TOTAL <= |body| <= MAX_TOTAL && k < 2 + |body|
    ensures Parse1((PutU16LE(|body|) + body)[..k], six).Short?
  {
    U16RoundTrip(|body|);
    if k >= 2 {
      assert (PutU16LE(|body|) + body)[..k][..2] == PutU16LE(|body|);
    }
  }

  lemma CutShort(m: Message, k: nat, quad: Recogniser, six: Six)
    requires Fits(m, quad, six) && k < |Encode(m, quad, six)|
    ensures Parse1(Encode(m, quad, six)[..k], six).Short?
  {
    var body := EncodeAddr(m.target, quad, six) + m.payload;
    assert Encode(m, quad, six) == PutU16LE(|body|) + body;
    ShortOf(body, k, six);
  }

  /** Any received prefix of a list of datagrams reads back as a prefix of the list, payload boundaries included. */
  lemma DatagramsSurvive(ms: seq<Message>, wire: Bytes, quad: Recogniser, six: Six)
    requires forall m :: m in ms ==> Fits(m, quad, six)
    requires wire <= EncodeAll(MessageCode(quad, six), ms)
    ensures DecodeAll(MessageCode(quad, six), wire) <= ms
    ensures wire == EncodeAll(MessageCode(quad, six), ms) ==> DecodeAll(MessageCode(quad, six), wire) == ms
  {
    var c := MessageCode(quad, six);
    var fits := (m: Message) => Fits(m, quad, six);
    forall m, rest | fits(m) ensures c.parse(c.enc(m) + rest) == Got(m, rest) {
      ParseBack(m, rest, quad, six);
    }
    forall m, k: nat | fits(m) && k < |c.enc(m)| ensures !c.parse(c.enc(m)[..k]).Got? {
      CutShort(m, k, quad, six);
    }
    forall m | fits(m) ensures c.enc(m) != [] {
      assert |Encode(m, quad, six)| >= 2;
    }
    PrefixDecodes(c, fits, ms, wire);
  }

  function Writes(m: Message, quad: Recogniser, six: Six): seq<Bytes> {
    var addr := EncodeAddr(m.target, quad, six);
    [PutU16LE(|addr| + |m.payload|), addr, m.payload]
  }

  lemma WritesEncode(m: Message, quad: Recogniser, six: Six)
    ensures Flatten(Writes(m, quad, six)) == Encode(m, quad, six)
  {
    var ws := Writes(m, quad, six);
    FlattenSnoc([], ws[0]);
    FlattenSnoc([ws[0]], ws[1]);
    FlattenSnoc([ws[0], ws[1]], ws[2]);
    assert [] + [ws[0]] == [ws[0]] && [ws[0]] + [ws[1]] == [ws[0], ws[1]] && [ws[0], ws[1]] + [ws[2]] == ws;
  }

  /** WriteMessage onto a conn that accepts that many writes, and a part of the next: nothing of a datagram that is too
      large; otherwise a prefix of the encoding, all of it exactly when it reports success. */
  method WriteMessage(m: Message, quad: Recogniser, six: Six, accepts: nat, part: nat)
    returns (writes: seq<Bytes>, ok: bool)
    ensures ok <==> |EncodeAddr(m.target, quad, six)| + |m.payload| <= 65535 && accepts >= 3
    ensures writes == if |EncodeAddr(m.target, quad, six)| + |m.payload| > 65535 then []
                      else Taken(Writes(m, quad, six), accepts, part)
    ensures Flatten(writes) <= Encode(m, quad, six) && (ok ==> Flatten(writes) == Encode(m, quad, six))
  {
    WritesEncode(m, quad, six);
    TakenPrefix(Writes(m, quad, six), accepts, part);
    var addrBytes := EncodeAddr(m.target, quad, six);
    var totalLen := |addrBytes| + |m.payload|;
    if totalLen > MAX_TOTAL {
      return [], false;
    }
    var header := PutU16LE(totalLen);
    if accepts < 1 {
      return [header[..Min(part, |header|)]], false;
    }
    if accepts < 2 {
      return [header, addrBytes[..Min(part, |addrBytes|)]], false;
    }
    if accepts < 3 {
      return [header, addrBytes, m.payload[..Min(part, |m.payload|)]], false;
    }
    return [header, addrBytes, m.payload], true;
  }

  /** ReadMessage over a stream cut anywhere. */
  method ReadMessage(src: Source, six: Six) returns (m: Message, ok: bool)
    modifies src
    ensures ok <==> Parse1(old(src.Rest()), six).Got?
    ensures ok ==> Got(m, src.Rest()) == Parse1(old(src.Rest()), six)
    ensures Parse1(old(src.Rest()), six).Short? ==> src.Rest() == []
  {
    ghost var stream := src.Rest();
    m := Message(Target([], 0), []);
    var header := new byte[2](_ => 0);
    var got := ReadFull(src, header, 2);
    if !got {
      return m, false;
    }
    var totalLen := GetU16LE(header[..2]);
    assert header[..2] == stream[..2];
    if totalLen < MIN_TOTAL {
      return m, false;
    }
    var buf := new byte[totalLen](_ => 0);
    got := ReadFull(src, buf, totalLen);
    if !got {
      return m, false;
    }
    assert buf[..] == buf[..totalLen] == stream[2..][..totalLen] == stream[2..2 + totalLen];
    var addr := DecodeAddr(buf[..], six);
    if addr.None? {
      return m, false;
    }
    return Message(addr.value.0, buf[addr.value.1..]), true;
  }
}
