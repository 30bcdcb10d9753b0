/** Target addresses: framing.go's CONNECT payload and the dotted-quad scanner behind it. Names are byte strings. */
module Addresses {
  import opened Common

  type u16 = x: int | 0 <= x < 65536

  const ADDR_IPV4: byte := 1
  const ADDR_DOMAIN: byte := 3
  const ADDR_IPV6: byte := 4
  const DOT: byte := 46
  const MAX_NAME: nat := 255

  predicate IsDigit(b: byte) {
    48 <= b <= 57
  }

  /** The scanner's white space: how many leading bytes it skips. All that is used of it is that it skips no digit. */
  type Skip = Bytes -> nat

  ghost predicate SkipsSpaceOnly(skip: Skip) {
    forall s: Bytes :: skip(s) <= |s| && (s != [] && IsDigit(s[0]) ==> skip(s) == 0)
  }

  function DigitRun(s: Bytes): (k: nat)
    ensures k <= |s|
  {
    if s != [] && IsDigit(s[0]) then 1 + DigitRun(s[1..]) else 0
  }

  function Value(digits: Bytes): nat {
    if digits == [] then 0
    else 10 * Value(digits[..|digits| - 1]) + if IsDigit(digits[|digits| - 1]) then digits[|digits| - 1] - 48 else 0
  }

  /** "%d" into a byte: skip space, take all digits, fail on none or on a value over 255. */
  function ScanByte(s: Bytes, skip: Skip): Option<(byte, Bytes)> {
    if skip(s) > |s| then None
    else
      var t := s[skip(s)..];
      var k := DigitRun(t);
      if k == 0 || Value(t[..k]) > 255 then None else Some((Value(t[..k]), t[k..]))
  }

  function ScanDotByte(s: Bytes, skip: Skip): Option<(byte, Bytes)> {
    if s == [] || s[0] != DOT then None else ScanByte(s[1..], skip)
  }

  datatype Quad = Quad(a: byte, b: byte, c: byte, d: byte)

  /** parseIPv4: "%d.%d.%d.%d" with whatever follows ignored. */
  function ParseIPv4(s: Bytes, skip: Skip): Option<Quad> {
    var a := ScanByte(s, skip);
    if a.None? then None else
    var b := ScanDotByte(a.value.1, skip);
    if b.None? then None else
    var c := ScanDotByte(b.value.1, skip);
    if c.None? then None else
    var d := ScanDotByte(c.value.1, skip);
    if d.None? then None else
    Some(Quad(a.value.0, b.value.0, c.value.0, d.value.0))
  }

  /** The recogniser the encoders use. Their laws hold for any recogniser; `Scan` is the code's. */
  type Recogniser = Bytes -> Option<Quad>

  function Scan(skip: Skip): Recogniser {
    s => ParseIPv4(s, skip)
  }

  /** "%d" of a byte. */
  function Decimal(b: byte): Bytes {
    if b < 10 then [48 + b]
    else if b < 100 then [48 + b / 10, 48 + b % 10]
    else [48 + b / 100, 48 + b / 10 % 10, 48 + b % 10]
  }

  function Dotted(q: Quad): Bytes {
    Decimal(q.a) + [DOT] + Decimal(q.b) + [DOT] + Decimal(q.c) + [DOT] + Decimal(q.d)
  }

  function Octets(q: Quad): (o: Bytes)
    ensures |o| == 4
  {
    [q.a, q.b, q.c, q.d]
  }

  lemma {:induction false} RunOfDigits(d: Bytes, rest: Bytes)
    requires (forall b :: b in d ==> IsDigit(b)) && (rest == [] || !IsDigit(rest[0]))
    ensures DigitRun(d + rest) == |d|
  {
    if d == [] {
      assert d + rest == rest;
    } else {
      assert (d + rest)[1..] == d[1..] + rest;
      RunOfDigits(d[1..], rest);
    }
  }

  lemma ValueOfDecimal(b: byte)
    ensures Value(Decimal(b)) == b
  {
    var d := Decimal(b);
    assert d[..0] == [];
    if |d| >= 2 {
      assert d[..1] == [d[0]] && d[..1][..0] == [];
      assert Value(d[..1]) == d[0] - 48;
    }
    if |d| == 3 {
      assert d[..2] == [d[0], d[1]] && d[..2][..1] == d[..1];
      assert Value(d[..2]) == 10 * (d[0] - 48) + (d[1] - 48);
    }
  }

  /** Only a single digit starts with a zero. */
  lemma NoLeadingZero(b: byte)
    ensures 1 <= |Decimal(b)| <= 3 && (forall x :: x in Decimal(b) ==> IsDigit(x))
    ensures |Decimal(b)| > 1 ==> Decimal(b)[0] != 48
  {
  }

  lemma ScansDecimal(b: byte, rest: Bytes, skip: Skip)
    requires SkipsSpaceOnly(skip) && (rest == [] || !IsDigit(rest[0]))
    ensures ScanByte(Decimal(b) + rest, skip) == Some((b, rest))
  {
    var d := Decimal(b);
    var s := d + rest;
    assert forall x :: x in d ==> IsDigit(x);
    RunOfDigits(d, rest);
    ValueOfDecimal(b);
    assert s[0] == d[0];
    assert s[0..] == s && s[..|d|] == d && s[|d|..] == rest;
  }

  lemma ScansDotDecimal(b: byte, rest: Bytes, skip: Skip)
    requires SkipsSpaceOnly(skip) && (rest == [] || !IsDigit(rest[0]))
    ensures ScanDotByte([DOT] + (Decimal(b) + rest), skip) == Some((b, rest))
  {
    ScansDecimal(b, rest, skip);
    assert ([DOT] + (Decimal(b) + rest))[1..] == Decimal(b) + rest;
  }

  lemma Regroup(a: Bytes, b: Bytes, c: Bytes, d: Bytes, rest: Bytes)
    ensures a + [DOT] + b + [DOT] + c + [DOT] + d + rest
            == a + ([DOT] + (b + ([DOT] + (c + ([DOT] + (d + rest))))))
  {
  }

  lemma ScanSteps(s: Bytes, q: Quad, t1: Bytes, t2: Bytes, t3: Bytes, t4: Bytes, skip: Skip)
    requires ScanByte(s, skip) == Some((q.a, t1)) && ScanDotByte(t1, skip) == Some((q.b, t2))
    requires ScanDotByte(t2, skip) == Some((q.c, t3)) && ScanDotByte(t3, skip) == Some((q.d, t4))
    ensures ParseIPv4(s, skip) == Some(q)
  {
  }

  /** A written quad scans back, whatever non-digit follows it. */
  lemma ScansDotted(q: Quad, rest: Bytes, skip: Skip)
    requires SkipsSpaceOnly(skip) && (rest == [] || !IsDigit(rest[0]))
    ensures ParseIPv4(Dotted(q) + rest, skip) == Some(q)
  {
    var a, b, c, d := Decimal(q.a), Decimal(q.b), Decimal(q.c), Decimal(q.d);
    var t3 := [DOT] + (d + rest);
    var t2 := [DOT] + (c + t3);
    var t1 := [DOT] + (b + t2);
    assert Dotted(q) + rest == a + t1 by {
      Regroup(a, b, c, d, rest);
    }
    ScansDecimal(q.a, t1, skip);
    ScansDotDecimal(q.b, t2, skip);
    ScansDotDecimal(q.c, t3, skip);
    ScansDotDecimal(q.d, rest, skip);
    ScanSteps(a + t1, q, t1, t2, t3, rest, skip);
  }

  datatype Target = Target(host: Bytes, port: u16)

  /** The name behind its one-byte length, which wraps as byte(len) does. */
  function NameField(host: Bytes): Bytes {
    [|host| % 256] + host
  }

  /** parseIPv6 never succeeds, so there is no such branch. */
  function EncodeConnect(t: Target, quad: Recogniser): Bytes {
    match quad(t.host)
    case Some(q) => [ADDR_IPV4] + Octets(q) + PutU16BE(t.port)
    case None => [ADDR_DOMAIN] + NameField(t.host) + PutU16BE(t.port)
  }

  /** `text6` is the formatter of sixteen address bytes. */
  function DecodeConnect(data: Bytes, text6: Bytes -> Bytes): Option<Target> {
    if |data| < 1 then None
    else if data[0] == ADDR_IPV4 then
      if |data| < 7 then None
      else Some(Target(Dotted(Quad(data[1], data[2], data[3], data[4])), GetU16BE(data[5..7])))
    else if data[0] == ADDR_IPV6 then
      if |data| < 19 then None else Some(Target(text6(data[1..17]), GetU16BE(data[17..19])))
    else if data[0] == ADDR_DOMAIN then
      if |data| < 2 then None
      else
        var nameLen: int := data[1];
        if |data| < 2 + nameLen + 2 then None
        else Some(Target(data[2..2 + nameLen], GetU16BE(data[2 + nameLen..2 + nameLen + 2])))
    else None
  }

  /** The payload on the wire: type 1, four bytes, port; or type 3, one-byte length, name, port; ports high byte first. */
  lemma WireBytes(t: Target, quad: Recogniser)
    ensures var e := EncodeConnect(t, quad);
            && (quad(t.host).Some? ==>
                  var q := quad(t.host).value; e == [1, q.a, q.b, q.c, q.d, t.port / 256, t.port % 256])
            && (quad(t.host).None? ==> e == [3, |t.host| % 256] + t.host + [t.port / 256, t.port % 256])
  {
  }

  /** Over every byte string: what is decoded, and from which bytes. */
  lemma DecodesExactly(data: Bytes, text6: Bytes -> Bytes)
    ensures var r, n := DecodeConnect(data, text6), |data|;
            && (r.Some? <==> (n >= 7 && data[0] == 1) || (n >= 19 && data[0] == 4)
                             || (n >= 2 && data[0] == 3 && n >= 4 + data[1] as int))
            && (n >= 7 && data[0] == 1 ==>
                  r == Some(Target(Dotted(Quad(data[1], data[2], data[3], data[4])), 256 * data[5] as int + data[6] as int)))
            && (n >= 19 && data[0] == 4 ==>
                  r == Some(Target(text6(data[1..17]), 256 * data[17] as int + data[18] as int)))
            && (n >= 2 && data[0] == 3 && n >= 4 + data[1] as int ==>
                  var k := 2 + data[1] as int;
                  r == Some(Target(data[2..k], 256 * data[k] as int + data[k + 1] as int)))
  {
  }

  /** What the scanner has recognised: space, digits of value at most 255, four times over with dots between, and then
      no further digit. */
  ghost predicate Scanned(s: Bytes, v: byte, rest: Bytes) {
    exists space: Bytes, digits: Bytes ::
      && s == space + digits + rest && digits != [] && Value(digits) == v
      && (forall b :: b in digits ==> IsDigit(b)) && (rest == [] || !IsDigit(rest[0]))
  }

  lemma {:induction false} RunIsDigits(s: Bytes)
    ensures var k := DigitRun(s);
            (forall b :: b in s[..k] ==> IsDigit(b)) && (k < |s| ==> !IsDigit(s[k]))
  {
    if s != [] && IsDigit(s[0]) {
      RunIsDigits(s[1..]);
      var k := DigitRun(s);
      assert s[..k] == [s[0]] + s[1..][..k - 1];
    }
  }

  lemma ScanByteExactly(s: Bytes, skip: Skip)
    ensures var r := ScanByte(s, skip); r.Some? ==> Scanned(s, r.value.0, r.value.1)
  {
    if ScanByte(s, skip).Some? {
      var t := s[skip(s)..];
      RunIsDigits(t);
      var k := DigitRun(t);
      assert s == s[..skip(s)] + t[..k] + t[k..];
    }
  }

  lemma ScanDotByteExactly(s: Bytes, skip: Skip)
    ensures var r := ScanDotByte(s, skip); r.Some? ==> s != [] && s[0] == DOT && Scanned(s[1..], r.value.0, r.value.1)
  {
    if s != [] {
      ScanByteExactly(s[1..], skip);
    }
  }

  /** Whatever is recognised is such a text: four numbers, with a dot before each but the first. */
  lemma RecognisedIsAQuad(s: Bytes, skip: Skip) returns (t1: Bytes, t2: Bytes, t3: Bytes, t4: Bytes)
    requires ParseIPv4(s, skip).Some?
    ensures t1 != [] && t1[0] == DOT && t2 != [] && t2[0] == DOT && t3 != [] && t3[0] == DOT
    ensures var q := ParseIPv4(s, skip).value;
            Scanned(s, q.a, t1) && Scanned(t1[1..], q.b, t2) && Scanned(t2[1..], q.c, t3) && Scanned(t3[1..], q.d, t4)
  {
    t1 := ScanByte(s, skip).value.1;
    t2 := ScanDotByte(t1, skip).value.1;
    t3 := ScanDotByte(t2, skip).value.1;
    t4 := ScanDotByte(t3, skip).value.1;
    ScanByteExactly(s, skip);
    ScanDotByteExactly(t1, skip);
    ScanDotByteExactly(t2, skip);
    ScanDotByteExactly(t3, skip);
  }

  /** The host survives: a quad in its plain form, or a name of at most 255 bytes that does not start with a quad. */
  predicate Plain(host: Bytes, quad: Recogniser) {
    match quad(host)
    case Some(q) => host == Dotted(q)
    case None => |host| <= MAX_NAME
  }

  lemma QuadFields(q: Quad, port: u16, more: Bytes)
    ensures var e := [ADDR_IPV4] + Octets(q) + PutU16BE(port) + more;
            Quad(e[1], e[2], e[3], e[4]) == q && e[5..7] == PutU16BE(port) && GetU16BE(e[5..7]) == port && e[7..] == more
  {
    U16RoundTrip(port);
  }

  lemma NameFields(host: Bytes, port: u16, more: Bytes)
    ensures var e := [ADDR_DOMAIN] + NameField(host) + PutU16BE(port) + more;
            var n := |host| % 256;
            && |e| >= 2 + n + 2 && e[0] == ADDR_DOMAIN && e[1] == n && e[2..2 + n] == host[..n]
            && (|host| <= MAX_NAME <==> e[2..2 + n] == host)
            && (|host| <= MAX_NAME ==> GetU16BE(e[2 + n..2 + n + 2]) == port && e[2 + n + 2..] == more)
            && (|host| <= MAX_NAME ==> 2 + n + 2 == |[ADDR_DOMAIN] + NameField(host) + PutU16BE(port)|)
  {
    U16RoundTrip(port);
    var e := [ADDR_DOMAIN] + NameField(host) + PutU16BE(port) + more;
    if |host| <= MAX_NAME {
      assert e[2 + |host|..2 + |host| + 2] == PutU16BE(port);
      assert host[..|host|] == host;
    } else {
      assert |e[2..2 + |host| % 256]| < |host|;
    }
  }

  /** A CONNECT target arrives unchanged exactly when its host is plain. */
  lemma ConnectExactly(t: Target, quad: Recogniser, text6: Bytes -> Bytes)
    ensures DecodeConnect(EncodeConnect(t, quad), text6) == Some(t) <==> Plain(t.host, quad)
  {
    var e := EncodeConnect(t, quad);
    assert e + [] == e;
    match quad(t.host)
    case Some(q) => QuadFields(q, t.port, []);
    case None => NameFields(t.host, t.port, []);
  }

  /** With the code's recogniser: every quad in plain form is plain. */
  lemma QuadsArePlain(q: Quad, skip: Skip)
    requires SkipsSpaceOnly(skip)
    ensures Scan(skip)(Dotted(q)) == Some(q) && Plain(Dotted(q), Scan(skip))
  {
    ScansDotted(q, [], skip);
    assert Dotted(q) + [] == Dotted(q);
  }

  /** The loss: a longer name that begins with a quad is replaced by the quad. */
  lemma QuadNameIsReplaced(q: Quad, suffix: Bytes, port: u16, skip: Skip, text6: Bytes -> Bytes)
    requires SkipsSpaceOnly(skip) && suffix != [] && !IsDigit(suffix[0])
    ensures DecodeConnect(EncodeConnect(Target(Dotted(q) + suffix, port), Scan(skip)), text6)
            == Some(Target(Dotted(q), port))
  {
    ScansDotted(q, suffix, skip);
    QuadFields(q, port, []);
    var e := [ADDR_IPV4] + Octets(q) + PutU16BE(port);
    assert e + [] == e;
  }

  /** EncodeConnectPayload, filling its buffer in place. */
  method EncodeConnectPayload(t: Target, quad: Recogniser) returns (buf: array<byte>)
    ensures fresh(buf) && buf[..] == EncodeConnect(t, quad)
  {
    var ip4 := quad(t.host);
    var port := PutU16BE(t.port);
    if ip4.Some? {
      buf := new byte[1 + 4 + 2](_ => 0);
      buf[0] := ADDR_IPV4;
      var o := Octets(ip4.value);
      forall i | 0 <= i < 4 {
        buf[1 + i] := o[i];
      }
      buf[5], buf[6] := port[0], port[1];
      assert buf[..] == [ADDR_IPV4] + o + port;
    } else {
      var name := NameField(t.host);
      var n := |name|;
      buf := new byte[1 + n + 2](_ => 0);
      buf[0] := ADDR_DOMAIN;
      forall i | 0 <= i < n {
        buf[1 + i] := name[i];
      }
      buf[1 + n], buf[2 + n] := port[0], port[1];
      assert buf[..] == [ADDR_DOMAIN] + name + port;
    }
  }
}
