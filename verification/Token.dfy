/** internal/crypto/auth/x25519.go: the auth token, over abstract key agreement, key derivation and AEAD. */
module Token {
  import opened Common

  /** X25519, HKDF-SHA256 and ChaCha20-Poly1305 as functions. `agree` may refuse a degenerate key. */
  datatype Crypto = Crypto(publicKey: Bytes -> Bytes,
                           agree: (Bytes, Bytes) -> Option<Bytes>,
                           derive: (Bytes, Bytes, Bytes) -> Bytes,
                           seal: (Bytes, Bytes, Bytes) -> Bytes,
                           unseal: (Bytes, Bytes, Bytes) -> Option<Bytes>)

  function Agree(c: Crypto, private: Bytes, public: Bytes): Option<Bytes> {
    (c.agree)(private, public)
  }

  function Public(c: Crypto, private: Bytes): Bytes {
    (c.publicKey)(private)
  }

  function Seal(c: Crypto, key: Bytes, nonce: Bytes, plain: Bytes): Bytes {
    (c.seal)(key, nonce, plain)
  }

  function Unseal(c: Crypto, key: Bytes, nonce: Bytes, sealed: Bytes): Option<Bytes> {
    (c.unseal)(key, nonce, sealed)
  }

  /** Section 6.1 of RFC 7748 and section 2.8 of RFC 8439. */
  ghost predicate Laws(c: Crypto) {
    && (forall a, b :: Agree(c, a, Public(c, b)) == Agree(c, b, Public(c, a)))
    && (forall a :: |Public(c, a)| == 32)
    && (forall key, nonce, plain :: Unseal(c, key, nonce, Seal(c, key, nonce, plain)) == Some(plain))
    && (forall key, nonce, plain :: |Seal(c, key, nonce, plain)| == |plain| + 16)
  }

  const INFO: Bytes := [110, 118, 45, 97, 117, 116, 104, 45, 118, 50]  // "nv-auth-v2"
  const MAX_SHORT_ID: nat := 8
  const NONCE_SIZE: nat := 12
  const TWO63: int := 0x8000_0000_0000_0000
  const TWO64: int := 0x1_0000_0000_0000_0000

  // ---- 64-bit time ----

  /** n as k bytes, high byte first; higher bits are lost. */
  function BigEndian(n: nat, k: nat): (b: Bytes)
    ensures |b| == k
  {
    if k == 0 then [] else BigEndian(n / 256, k - 1) + [n % 256]
  }

  function FromBigEndian(b: Bytes): nat {
    if b == [] then 0 else 256 * FromBigEndian(b[..|b| - 1]) + b[|b| - 1]
  }

  function Pow256(k: nat): nat {
    if k == 0 then 1 else 256 * Pow256(k - 1)
  }

  lemma {:induction false} BigEndianRoundTrip(n: nat, k: nat)
    requires n < Pow256(k)
    ensures FromBigEndian(BigEndian(n, k)) == n
  {
    if k > 0 {
      BigEndianRoundTrip(n / 256, k - 1);
      var b := BigEndian(n, k);
      assert b[..|b| - 1] == BigEndian(n / 256, k - 1);
    }
  }

  /** int64 arithmetic wraps. */
  function Int64(n: int): int {
    (n + TWO63) % TWO64 - TWO63
  }

  function TimeBytes(t: int): Bytes {
    BigEndian(t % TWO64, 8)
  }

  function TimeOf(b: Bytes): int {
    Int64(FromBigEndian(b))
  }

  lemma TimeRoundTrip(t: int)
    requires -TWO63 <= t < TWO63
    ensures TimeOf(TimeBytes(t)) == t
  {
    assert Pow256(8) == TWO64 by {
      assert Pow256(4) == 0x1_0000_0000;
    }
    BigEndianRoundTrip(t % TWO64, 8);
  }

  /** The server's timestamp check. */
  predicate Timely(now: int, timestamp: int, maxDiff: int) {
    var diff := Int64(now - timestamp);
    var gap := if diff < 0 then Int64(-diff) else diff;
    gap <= maxDiff
  }

  /** For clocks after the epoch the check is on the true distance. */
  lemma TimelyExactly(now: int, timestamp: int, maxDiff: int)
    requires 0 <= now < TWO63 && 0 <= timestamp < TWO63
    ensures Timely(now, timestamp, maxDiff) <==> -maxDiff <= now - timestamp <= maxDiff
  {
  }

  /** For any timestamp a token can carry, the check also passes where the 64-bit difference wraps: at a distance of
      2^63, whose negation is itself, and at one of nearly 2^64. */
  lemma TimelyWithWrap(now: int, timestamp: int, maxDiff: int)
    requires 0 <= now < TWO63 && -TWO63 <= timestamp < TWO63 && -TWO63 <= maxDiff < TWO63
    ensures Timely(now, timestamp, maxDiff)
            <==> -maxDiff <= now - timestamp <= maxDiff
                 || now - timestamp == TWO63 || now - timestamp >= TWO64 - maxDiff
  {
  }

  lemma WrappedTimePasses(now: int, maxDiff: int)
    requires 0 <= now < TWO63 && 0 <= maxDiff < TWO63
    ensures Timely(now, now - TWO63, maxDiff)
  {
  }

  lemma LowByte(n: nat, k: nat)
    requires k > 0
    ensures var b := BigEndian(n, k);
            b[k - 1] == n % 256 && b[..k - 1] == BigEndian(n / 256, k - 1) && n == 256 * (n / 256) + b[k - 1] as int
  {
  }

  lemma FourLow(n: nat, k: nat) returns (m: nat)
    requires k >= 4
    ensures var b := BigEndian(n, k);
            && b[..k - 4] == BigEndian(m, k - 4)
            && n == 0x1_0000_0000 * m + 0x100_0000 * b[k - 4] as int + 0x1_0000 * b[k - 3] as int
                    + 0x100 * b[k - 2] as int + b[k - 1] as int
  {
    LowByte(n, k);
    LowByte(n / 256, k - 1);
    LowByte(n / 256 / 256, k - 2);
    LowByte(n / 256 / 256 / 256, k - 3);
    m := n / 256 / 256 / 256 / 256;
    var b := BigEndian(n, k);
    assert b[..k - 1][..k - 2] == b[..k - 2] && b[..k - 2][..k - 3] == b[..k - 3] && b[..k - 3][..k - 4] == b[..k - 4];
  }

  lemma Weigh(t: int, m: nat, rest: nat, low: Bytes, high: Bytes)
    requires 0 <= t < TWO63 && |low| == 8 && |high| == 4 && low[..4] == high
    requires t == 0x1_0000_0000 * m + 0x100_0000 * low[4] as int + 0x1_0000 * low[5] as int
                  + 0x100 * low[6] as int + low[7] as int
    requires m == 0x1_0000_0000 * rest + 0x100_0000 * high[0] as int + 0x1_0000 * high[1] as int
                  + 0x100 * high[2] as int + high[3] as int
    ensures t == 0x100_0000_0000_0000 * low[0] as int + 0x1_0000_0000_0000 * low[1] as int
                 + 0x100_0000_0000 * low[2] as int + 0x1_0000_0000 * low[3] as int
                 + 0x100_0000 * low[4] as int + 0x1_0000 * low[5] as int + 0x100 * low[6] as int + low[7] as int
  {
    assert low[0] == high[0] && low[1] == high[1] && low[2] == high[2] && low[3] == high[3];
  }

  /** The time field, by the weights of its bytes: the highest comes first. */
  lemma TimeField(t: int)
    requires 0 <= t < TWO63
    ensures var b := TimeBytes(t);
            && |b| == 8
            && t == 0x100_0000_0000_0000 * b[0] as int + 0x1_0000_0000_0000 * b[1] as int
                    + 0x100_0000_0000 * b[2] as int + 0x1_0000_0000 * b[3] as int
                    + 0x100_0000 * b[4] as int + 0x1_0000 * b[5] as int + 0x100 * b[6] as int + b[7] as int
  {
    assert t % TWO64 == t;
    var m := FourLow(t, 8);
    var rest := FourLow(m, 4);
    Weigh(t, m, rest, BigEndian(t, 8), BigEndian(m, 4));
  }

  // ---- Layout ----

  /** ephPub(32) userPub(32) shortIDLen(1) shortID(0-8) timestamp(8) nonce(12) ciphertext. */
  datatype Fields = Fields(ephPub: Bytes, userPub: Bytes, shortID: Bytes, time: Bytes, nonce: Bytes, sealed: Bytes)

  function Join(f: Fields): Bytes {
    f.ephPub + f.userPub + [|f.shortID| % 256] + f.shortID + f.time + f.nonce + f.sealed
  }

  function Split(token: Bytes): Option<Fields> {
    if |token| < 32 + 32 + 1 + 0 + 8 + NONCE_SIZE + 16 then None
    else
      var idLen: int := token[64];
      if idLen > MAX_SHORT_ID || |token| < 65 + idLen + 8 + NONCE_SIZE + 32 then None
      else
        var at := 65 + idLen;
        Some(Fields(token[..32], token[32..64], token[65..at], token[at..at + 8],
                    token[at + 8..at + 8 + NONCE_SIZE], token[at + 8 + NONCE_SIZE..]))
  }

  predicate Shaped(f: Fields) {
    && |f.ephPub| == 32 && |f.userPub| == 32 && |f.shortID| <= 255
    && |f.time| == 8 && |f.nonce| == NONCE_SIZE && |f.sealed| >= 32
  }

  /** The variable-length layout splits back into its fields exactly when the short ID has at most 8 bytes. */
  lemma LayoutExactly(f: Fields)
    requires Shaped(f)
    ensures Split(Join(f)) == if |f.shortID| <= MAX_SHORT_ID then Some(f) else None
  {
    var t := Join(f);
    assert t[64] == |f.shortID|;
    if |f.shortID| <= MAX_SHORT_ID {
      var at := 65 + |f.shortID|;
      assert t[..32] == f.ephPub && t[32..64] == f.userPub && t[65..at] == f.shortID;
      assert t[at..at + 8] == f.time && t[at + 8..at + 20] == f.nonce && t[at + 20..] == f.sealed;
    }
  }

  /** Whatever the server splits, it has lost no byte of. */
  lemma SplitLosesNothing(token: Bytes)
    ensures Split(token).Some? ==> Join(Split(token).value) == token
  {
    if Split(token).Some? {
      var f := Split(token).value;
      assert token == f.ephPub + f.userPub + [token[64]] + f.shortID + f.time + f.nonce + f.sealed;
    }
  }

  // ---- Both ends ----

  datatype Client = Client(serverPublicKey: Bytes, userPrivateKey: Bytes, userPublicKey: Bytes, shortID: Bytes)

  function Fit(b: Bytes, n: nat): (r: Bytes)
    ensures |r| == n
  {
    seq(n, i requires 0 <= i < n => if i < |b| then b[i] else 0)
  }

  /** Both shared secrets, each copied into its 32 bytes. */
  function Combined(eph: Bytes, user: Bytes): Bytes {
    Fit(eph, 32) + Fit(user, 32)
  }

  function AuthKey(c: Crypto, combined: Bytes, shortID: Bytes, time: Bytes): Bytes {
    (c.derive)(combined, shortID + time, INFO)
  }

  function GenerateToken(c: Crypto, cl: Client, sessionID: Bytes, ephPriv: Bytes, nonce: Bytes, now: int): Option<Bytes> {
    var eph := Agree(c, ephPriv, cl.serverPublicKey);
    var user := Agree(c, cl.userPrivateKey, cl.serverPublicKey);
    if eph.None? || user.None? then None
    else
      var time := TimeBytes(now);
      var key := AuthKey(c, Combined(eph.value, user.value), cl.shortID, time);
      Some(Join(Fields(Public(c, ephPriv), cl.userPublicKey, cl.shortID, time, nonce, Seal(c, key, nonce, sessionID))))
  }

  datatype Server = Server(privateKey: Bytes, users: map<Bytes, Bytes>, maxTimeDiff: int)

  function HexDigit(n: nat): byte
    requires n < 16
  {
    if n < 10 then 48 + n else 87 + n
  }

  function Hex(b: Bytes): Bytes {
    if b == [] then [] else [HexDigit(b[0] / 16), HexDigit(b[0] % 16)] + Hex(b[1..])
  }

  /** `users` maps the hex short ID to the registered public key; the zero key accepts any. */
  predicate Registered(s: Server, shortID: Bytes, userPub: Bytes) {
    Hex(shortID) in s.users && (s.users[Hex(shortID)] == Fit([], 32) || s.users[Hex(shortID)] == userPub)
  }

  function Validate(c: Crypto, s: Server, token: Bytes, now: int): Option<Bytes> {
    match Split(token)
    case None => None
    case Some(f) =>
      if !Registered(s, f.shortID, f.userPub) || !Timely(now, TimeOf(f.time), s.maxTimeDiff) then None
      else
        var eph := Agree(c, s.privateKey, f.ephPub);
        var user := Agree(c, s.privateKey, f.userPub);
        if eph.None? || user.None? then None
        else
          var key := AuthKey(c, Combined(eph.value, user.value), f.shortID, f.time);
          var plain := Unseal(c, key, f.nonce, f.sealed);
          if plain.None? || |plain.value| != 16 then None else plain
  }

  lemma RegisteredExactly(s: Server, shortID: Bytes, userPub: Bytes)
    ensures Registered(s, shortID, userPub)
            <==> Hex(shortID) in s.users
                 && (var key := s.users[Hex(shortID)];
                     key == userPub || (|key| == 32 && forall i :: 0 <= i < 32 ==> key[i] == 0))
  {
    if Hex(shortID) in s.users {
      var key := s.users[Hex(shortID)];
      if |key| == 32 && forall i :: 0 <= i < 32 ==> key[i] == 0 {
        assert key == Fit([], 32);
      }
    }
  }

  lemma FitKeeps(b: Bytes)
    requires |b| == 32
    ensures Fit(b, 32) == b
  {
  }

  /** A token made with matching keys is accepted, with exactly the session ID it was made for, when the short ID is
      at most 8 bytes, the user is registered and the clocks are near enough; otherwise it is rejected. */
  lemma TokenAgreement(c: Crypto, cl: Client, s: Server, sessionID: Bytes, ephPriv: Bytes, nonce: Bytes, then': int, now: int)
    requires Laws(c) && |sessionID| == 16 && |nonce| == NONCE_SIZE && |cl.shortID| <= 255
    requires cl.serverPublicKey == Public(c, s.privateKey) && cl.userPublicKey == Public(c, cl.userPrivateKey)
    requires 0 <= then' < TWO63 && 0 <= now < TWO63
    requires GenerateToken(c, cl, sessionID, ephPriv, nonce, then').Some?
    ensures var token := GenerateToken(c, cl, sessionID, ephPriv, nonce, then').value;
            Validate(c, s, token, now)
            == if |cl.shortID| <= 8
                  && Hex(cl.shortID) in s.users
                  && (var key := s.users[Hex(cl.shortID)];
                      key == cl.userPublicKey || (|key| == 32 && forall i :: 0 <= i < 32 ==> key[i] == 0))
                  && -s.maxTimeDiff <= now - then' <= s.maxTimeDiff
               then Some(sessionID) else None
  {
    var eph := Agree(c, ephPriv, cl.serverPublicKey).value;
    var user := Agree(c, cl.userPrivateKey, cl.serverPublicKey).value;
    var time := TimeBytes(then');
    var key := AuthKey(c, Combined(eph, user), cl.shortID, time);
    var f := Fields(Public(c, ephPriv), cl.userPublicKey, cl.shortID, time, nonce, Seal(c, key, nonce, sessionID));
    LayoutExactly(f);
    RegisteredExactly(s, cl.shortID, cl.userPublicKey);
    TimeRoundTrip(then');
    TimelyExactly(now, then', s.maxTimeDiff);
    assert Agree(c, s.privateKey, f.ephPub) == Some(eph) && Agree(c, s.privateKey, f.userPub) == Some(user);
  }

  /** What is sent, byte field by byte field, and what its key is derived from: both shared secrets, the short ID and
      the time of the token itself, and the label "nv-auth-v2". */
  lemma GeneratedExactly(c: Crypto, cl: Client, sessionID: Bytes, ephPriv: Bytes, nonce: Bytes, now: int)
    requires 0 <= now < TWO63
    ensures var token := GenerateToken(c, cl, sessionID, ephPriv, nonce, now);
            var eph, user := (c.agree)(ephPriv, cl.serverPublicKey), (c.agree)(cl.userPrivateKey, cl.serverPublicKey);
            && (token.Some? <==> eph.Some? && user.Some?)
            && (eph.Some? && user.Some? && |eph.value| == 32 && |user.value| == 32 ==>
                  var time := TimeBytes(now);
                  var key := (c.derive)(eph.value + user.value, cl.shortID + time,
                                        [110, 118, 45, 97, 117, 116, 104, 45, 118, 50]);
                  token.value == (c.publicKey)(ephPriv) + cl.userPublicKey + [|cl.shortID| % 256] + cl.shortID
                                 + time + nonce + (c.seal)(key, nonce, sessionID))
  {
    var eph, user := (c.agree)(ephPriv, cl.serverPublicKey), (c.agree)(cl.userPrivateKey, cl.serverPublicKey);
    if eph.Some? && user.Some? && |eph.value| == 32 && |user.value| == 32 {
      FitKeeps(eph.value);
      FitKeeps(user.value);
    }
  }

  /** Over every byte string: what Validate accepts, and with which session ID, read off the token's own bytes. The user
      key the token carries is the registered one, or none is registered; its time is near, or at a distance where the
      difference wraps; and it opens under the key derived from its own fields. */
  lemma ValidExactly(c: Crypto, s: Server, token: Bytes, now: int, id: Bytes)
    requires 0 <= now < TWO63 && -TWO63 <= s.maxTimeDiff < TWO63
    ensures Validate(c, s, token, now) == Some(id)
            <==>
            && |token| >= 117 && token[64] <= 8 && |token| >= 117 + token[64] as int
            && var n := token[64] as int;
               var shortID, time := token[65..65 + n], token[65 + n..73 + n];
               && Hex(shortID) in s.users
               && (var key := s.users[Hex(shortID)];
                   key == token[32..64] || (|key| == 32 && forall i :: 0 <= i < 32 ==> key[i] == 0))
               && (var gap := now - TimeOf(time);
                   -s.maxTimeDiff <= gap <= s.maxTimeDiff || gap == TWO63 || gap >= TWO64 - s.maxTimeDiff)
               && var eph, user := (c.agree)(s.privateKey, token[..32]), (c.agree)(s.privateKey, token[32..64]);
                  && eph.Some? && user.Some?
                  && var key := (c.derive)(Fit(eph.value, 32) + Fit(user.value, 32), shortID + time,
                                           [110, 118, 45, 97, 117, 116, 104, 45, 118, 50]);
                     (c.unseal)(key, token[73 + n..85 + n], token[85 + n..]) == Some(id) && |id| == 16
  {
    if Split(token).Some? {
      var f := Split(token).value;
      RegisteredExactly(s, f.shortID, f.userPub);
      TimelyWithWrap(now, TimeOf(f.time), s.maxTimeDiff);
    }
  }

  /** A hex digit, by the digits. */
  lemma HexLiteral(b: byte)
    ensures Hex([b]) == ["0123456789abcdef"[b / 16] as int, "0123456789abcdef"[b % 16] as int]
  {
    assert Hex([b][1..]) == [];
  }

  /** The user table's keys tell short IDs apart. */
  lemma {:induction false} HexInjective(a: Bytes, b: Bytes)
    requires Hex(a) == Hex(b)
    ensures a == b
  {
    if a == [] || b == [] {
    } else {
      var x, y := Hex(a), Hex(b);
      assert x[0] == HexDigit(a[0] / 16) && x[1] == HexDigit(a[0] % 16) && x[2..] == Hex(a[1..]);
      assert y[0] == HexDigit(b[0] / 16) && y[1] == HexDigit(b[0] % 16) && y[2..] == Hex(b[1..]);
      assert a[0] == 16 * (a[0] / 16) + a[0] % 16 && b[0] == 16 * (b[0] / 16) + b[0] % 16;
      HexInjective(a[1..], b[1..]);
      assert a == [a[0]] + a[1..] && b == [b[0]] + b[1..];
    }
  }
}
