/** internal/proxy/socks5.go: the inbound handshake, where CONNECT targets come from. */
module Socks5 {
  import opened Common
  import opened Streams
  import opened Addresses

  const VERSION: byte := 5
  const CMD_CONNECT: byte := 1

  /** The target, what is left of the client's bytes, and the replies sent meanwhile. */
  datatype Outcome = Outcome(target: Option<Target>, rest: Bytes, replies: seq<Bytes>)

  const AUTH_REPLY: Bytes := [VERSION, 0]

  function Refusal(code: byte): Bytes {
    [VERSION, code, 0, ADDR_IPV4, 0, 0, 0, 0, 0, 0]
  }

  /** Taking n bytes off the stream; when they never come everything is consumed. */
  function AddressThenPort(s: Bytes, kind: byte, text6: Bytes -> Bytes): Outcome {
    if kind == ADDR_IPV4 then
      if |s| < 4 then Outcome(None, [], [AUTH_REPLY])
      else ThenPort(Dotted(Quad(s[0], s[1], s[2], s[3])), s[4..])
    else if kind == ADDR_DOMAIN then
      if |s| < 1 || |s| < 1 + s[0] as int then Outcome(None, [], [AUTH_REPLY])
      else
        var n: int := s[0];
        ThenPort(s[1..1 + n], s[1 + n..])
    else if kind == ADDR_IPV6 then
      if |s| < 16 then Outcome(None, [], [AUTH_REPLY]) else ThenPort(text6(s[..16]), s[16..])
    else Outcome(None, s, [AUTH_REPLY, Refusal(8)])
  }

  function ThenPort(host: Bytes, s: Bytes): Outcome {
    if |s| < 2 then Outcome(None, [], [AUTH_REPLY])
    else Outcome(Some(Target(host, GetU16BE(s[..2]))), s[2..], [AUTH_REPLY])
  }

  function Request(s: Bytes, text6: Bytes -> Bytes): Outcome {
    if |s| < 4 then Outcome(None, [], [AUTH_REPLY])
    else if s[0] != VERSION then Outcome(None, s[4..], [AUTH_REPLY])
    else if s[1] != CMD_CONNECT then Outcome(None, s[4..], [AUTH_REPLY, Refusal(7)])
    else AddressThenPort(s[4..], s[3], text6)
  }

  /** `heard` is whether the client takes the first reply; whether it takes a refusal makes no difference. */
  function Handshake(s: Bytes, heard: bool, text6: Bytes -> Bytes): Outcome {
    if |s| < 2 then Outcome(None, [], [])
    else if s[0] != VERSION then Outcome(None, s[2..], [])
    else if |s| < 2 + s[1] as int then Outcome(None, [], [])
    else if !heard then Outcome(None, s[2 + s[1] as int..], [])
    else Request(s[2 + s[1] as int..], text6)
  }

  /** SOCKS5Handshake, over a stream cut anywhere; every read reuses the same 258-byte buffer. */
  method SOCKS5Handshake(conn: Source, heard: bool, text6: Bytes -> Bytes)
    returns (target: Option<Target>, replies: seq<Bytes>)
    modifies conn
    ensures Outcome(target, conn.Rest(), replies) == Handshake(old(conn.Rest()), heard, text6)
  {
    ghost var s := conn.Rest();
    var buf := new byte[258](_ => 0);
    var got := ReadFull(conn, buf, 2);
    if !got {
      return None, [];
    }
    var head := buf[..2];
    assert head == s[..2] && head[0] == s[0] && head[1] == s[1];
    if head[0] != VERSION {
      return None, [];
    }
    got := ReadFull(conn, buf, head[1]);
    if !got {
      return None, [];
    }
    assert conn.Rest() == s[2 + s[1] as int..];
    if !heard {
      return None, [];
    }
    target, replies := ReadRequest(conn, buf, text6);
  }

  method ReadRequest(conn: Source, buf: array<byte>, text6: Bytes -> Bytes)
    returns (target: Option<Target>, replies: seq<Bytes>)
    requires buf.Length == 258
    modifies conn, buf
    ensures Outcome(target, conn.Rest(), replies) == Request(old(conn.Rest()), text6)
  {
    ghost var s := conn.Rest();
    var got := ReadFull(conn, buf, 4);
    if !got {
      return None, [AUTH_REPLY];
    }
    var head := buf[..4];
    assert head == s[..4];
    if head[0] != VERSION {
      return None, [AUTH_REPLY];
    }
    if head[1] != CMD_CONNECT {
      return None, [AUTH_REPLY, Refusal(7)];
    }
    target, replies := ReadAddress(conn, buf, head[3], text6);
  }

  method ReadAddress(conn: Source, buf: array<byte>, atyp: byte, text6: Bytes -> Bytes)
    returns (target: Option<Target>, replies: seq<Bytes>)
    requires buf.Length == 258
    modifies conn, buf
    ensures Outcome(target, conn.Rest(), replies) == AddressThenPort(old(conn.Rest()), atyp, text6)
  {
    ghost var s := conn.Rest();
    var host: Bytes;
    if atyp == ADDR_IPV4 {
      var got := ReadFull(conn, buf, 4);
      if !got {
        return None, [AUTH_REPLY];
      }
      var q := buf[..4];
      assert q == s[..4];
      host := Dotted(Quad(q[0], q[1], q[2], q[3]));
    } else if atyp == ADDR_DOMAIN {
      var got := ReadFull(conn, buf, 1);
      if !got {
        return None, [AUTH_REPLY];
      }
      var nameLen := buf[..1][0];
      assert nameLen == s[..1][0] == s[0];
      got := ReadFull(conn, buf, nameLen);
      if !got {
        return None, [AUTH_REPLY];
      }
      assert buf[..nameLen] == s[1..][..nameLen] == s[1..1 + nameLen as int];
      host := buf[..nameLen];
      assert conn.Rest() == s[1 + nameLen as int..];
    } else if atyp == ADDR_IPV6 {
      var got := ReadFull(conn, buf, 16);
      if !got {
        return None, [AUTH_REPLY];
      }
      host := text6(buf[..16]);
    } else {
      return None, [AUTH_REPLY, Refusal(8)];
    }
    var got := ReadFull(conn, buf, 2);
    if !got {
      return None, [AUTH_REPLY];
    }
    return Some(Target(host, GetU16BE(buf[..2]))), [AUTH_REPLY];
  }

  // ---- What a client sends (sections 3 to 5 of RFC 1928) ----

  datatype Destination = V4(q: Quad) | Name(name: Bytes)

  function HostOf(d: Destination): Bytes {
    match d
    case V4(q) => Dotted(q)
    case Name(name) => name
  }

  function AddressField(d: Destination): Bytes
    requires d.Name? ==> |d.name| <= 255
  {
    match d
    case V4(q) => Octets(q)
    case Name(name) => [|name|] + name
  }

  function Ask(d: Destination, port: u16): Bytes
    requires d.Name? ==> |d.name| <= 255
  {
    [VERSION, CMD_CONNECT, 0, if d.V4? then ADDR_IPV4 else ADDR_DOMAIN] + AddressField(d) + PutU16BE(port)
  }

  function Hello(methods: Bytes, d: Destination, port: u16): Bytes
    requires |methods| <= 255 && (d.Name? ==> |d.name| <= 255)
  {
    [VERSION, |methods|] + methods + Ask(d, port)
  }

  lemma AddressUnderstood(d: Destination, port: u16, more: Bytes, text6: Bytes -> Bytes)
    requires d.Name? ==> |d.name| <= 255
    ensures AddressThenPort(AddressField(d) + (PutU16BE(port) + more), if d.V4? then ADDR_IPV4 else ADDR_DOMAIN, text6)
            == Outcome(Some(Target(HostOf(d), port)), more, [AUTH_REPLY])
  {
    U16RoundTrip(port);
    var tail := PutU16BE(port) + more;
    var s := AddressField(d) + tail;
    assert tail[..2] == PutU16BE(port) && tail[2..] == more;
    match d
    case V4(q) => assert s[4..] == tail;
    case Name(name) => assert s[1..1 + |name|] == name && s[1 + |name|..] == tail;
  }

  lemma RequestOpens(kind: byte, rest: Bytes, text6: Bytes -> Bytes)
    ensures Request([VERSION, CMD_CONNECT, 0, kind] + rest, text6) == AddressThenPort(rest, kind, text6)
  {
    assert ([VERSION, CMD_CONNECT, 0, kind] + rest)[4..] == rest;
  }

  lemma HandshakeOpens(methods: Bytes, rest: Bytes, text6: Bytes -> Bytes)
    requires |methods| <= 255
    ensures Handshake([VERSION, |methods|] + methods + rest, true, text6) == Request(rest, text6)
  {
    assert ([VERSION, |methods|] + methods + rest)[2 + |methods|..] == rest;
  }

  lemma HelloParts(methods: Bytes, d: Destination, port: u16, more: Bytes)
    requires |methods| <= 255 && (d.Name? ==> |d.name| <= 255)
    ensures Hello(methods, d, port) + more
            == [VERSION, |methods|] + methods +
               ([VERSION, CMD_CONNECT, 0, if d.V4? then ADDR_IPV4 else ADDR_DOMAIN] +
                (AddressField(d) + (PutU16BE(port) + more)))
  {
    var open := [VERSION, CMD_CONNECT, 0, if d.V4? then ADDR_IPV4 else ADDR_DOMAIN];
    Reassociate([VERSION, |methods|] + methods, open, AddressField(d), PutU16BE(port), more);
  }

  lemma Reassociate(a: Bytes, b: Bytes, c: Bytes, d: Bytes, e: Bytes)
    ensures a + (b + c + d) + e == a + (b + (c + (d + e)))
  {
  }

  /** The request on the wire (sections 3 to 5 of RFC 1928). */
  lemma WireBytes(methods: Bytes, d: Destination, port: u16)
    requires |methods| <= 255 && (d.Name? ==> |d.name| <= 255)
    ensures Hello(methods, d, port)
            == [5, |methods|] + methods + [5, 1, 0] +
               (match d
                case V4(q) => [1, q.a, q.b, q.c, q.d]
                case Name(name) => [3, |name|] + name) + [port / 256, port % 256]
  {
  }

  /** What it does not understand: another version of the greeting, unanswered; then, past the reply [5, 0], another
      version, unanswered; another command than CONNECT, refused with code 7; an unknown kind of address, with code 8. */
  lemma HandshakeRefuses(methods: Bytes, version: byte, command: byte, reserved: byte, kind: byte, rest: Bytes,
                         text6: Bytes -> Bytes)
    requires |methods| <= 255
    ensures forall greeting: Bytes :: |greeting| >= 2 && greeting[0] != 5 ==>
              Handshake(greeting, true, text6) == Outcome(None, greeting[2..], [])
    ensures var o := Handshake([5, |methods|] + methods + ([version, command, reserved, kind] + rest), true, text6);
            && (version != 5 ==> o == Outcome(None, rest, [[5, 0]]))
            && (version == 5 && command != 1 ==> o == Outcome(None, rest, [[5, 0], [5, 7, 0, 1, 0, 0, 0, 0, 0, 0]]))
            && (version == 5 && command == 1 && kind !in {1, 3, 4} ==>
                  o == Outcome(None, rest, [[5, 0], [5, 8, 0, 1, 0, 0, 0, 0, 0, 0]]))
  {
    var ask := [version, command, reserved, kind] + rest;
    HandshakeOpens(methods, ask, text6);
    assert ask[4..] == rest;
  }

  /** The handshake takes from the client's bytes exactly its request and understands it. */
  lemma HandshakeUnderstands(methods: Bytes, d: Destination, port: u16, more: Bytes, text6: Bytes -> Bytes)
    requires |methods| <= 255 && (d.Name? ==> |d.name| <= 255)
    ensures Handshake(Hello(methods, d, port) + more, true, text6)
            == Outcome(Some(Target(HostOf(d), port)), more, [AUTH_REPLY])
  {
    var kind := if d.V4? then ADDR_IPV4 else ADDR_DOMAIN;
    var rest := AddressField(d) + (PutU16BE(port) + more);
    var ask := [VERSION, CMD_CONNECT, 0, kind] + rest;
    calc {
      Handshake(Hello(methods, d, port) + more, true, text6);
      { HelloParts(methods, d, port, more); }
      Handshake([VERSION, |methods|] + methods + ask, true, text6);
      { HandshakeOpens(methods, ask, text6); }
      Request(ask, text6);
      { RequestOpens(kind, rest, text6); }
      AddressThenPort(rest, kind, text6);
      { AddressUnderstood(d, port, more, text6); }
      Outcome(Some(Target(HostOf(d), port)), more, [AUTH_REPLY]);
    }
  }

  /** From the SOCKS5 request to the server's CONNECT target: an address always arrives unchanged, a name exactly when
      it does not start with a dotted quad (or is nothing but one). */
  lemma SocksToConnect(methods: Bytes, d: Destination, port: u16, more: Bytes, skip: Skip, text6: Bytes -> Bytes)
    requires SkipsSpaceOnly(skip) && |methods| <= 255 && (d.Name? ==> |d.name| <= 255)
    ensures var o := Handshake(Hello(methods, d, port) + more, true, text6);
            && o.target.Some?
            && (DecodeConnect(EncodeConnect(o.target.value, Scan(skip)), text6) == Some(Target(HostOf(d), port))
                <==> d.V4? || ParseIPv4(d.name, skip).None? || d.name == Dotted(ParseIPv4(d.name, skip).value))
  {
    HandshakeUnderstands(methods, d, port, more, text6);
    ConnectExactly(Target(HostOf(d), port), Scan(skip), text6);
    if d.V4? {
      QuadsArePlain(d.q, skip);
    }
  }
}
