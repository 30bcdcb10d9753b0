/** internal/security/reality.go, SNIExtract: the server name in a TLS ClientHello. */
module Sni {
  import opened Common
  import opened Streams

  const MIN_HELLO: nat := 44

  function U16At(data: Bytes, i: nat): nat
    requires i + 2 <= |data|
  {
    256 * (data[i] as int) + (data[i + 1] as int)
  }

  // ---- What the cursor code computes ----

  /** Where the extensions start and end, or nothing if the data stops before them. */
  function ExtensionRange(data: Bytes): (r: Option<(nat, nat)>)
    ensures r.Some? ==> r.value.0 <= r.value.1 <= |data|
  {
    if |data| < MIN_HELLO || data[0] != 0x16 || data[5] != 1 then None
    else
      var p1: nat := 44 + data[43] as int;
      if p1 + 2 > |data| then None
      else
        var p2 := p1 + 2 + U16At(data, p1);
        if p2 + 1 > |data| then None
        else
          var p3 := p2 + 1 + data[p2];
          if p3 + 2 > |data| then None
          else Some((p3 + 2, Min(p3 + 2 + U16At(data, p3), |data|)))
  }

  /** An extension: kind, 16-bit length, body. */
  datatype Block = Block(kind: nat, body: Bytes)

  function BlockBytes(b: Block): Bytes {
    PutU16BE(b.kind) + PutU16BE(|b.body|) + b.body
  }

  function ParseBlock(s: Bytes): Parse<Block> {
    if |s| < 4 then Short
    else
      var len := U16At(s, 2);
      if |s| < 4 + len then Short else Got(Block(U16At(s, 0), s[4..4 + len]), s[4 + len..])
  }

  const BLOCK_CODE: Code<Block> := Code(BlockBytes, ParseBlock)

  /** The first server_name block decides; one whose name does not fit its body is passed over. */
  function NameIn(bs: seq<Block>): Bytes {
    if bs == [] then []
    else
      var body := bs[0].body;
      if bs[0].kind == 0 && |body| < 5 then []
      else if bs[0].kind == 0 && 5 + U16At(body, 3) <= |body| then body[5..5 + U16At(body, 3)]
      else NameIn(bs[1..])
  }

  function Walk(exts: Bytes): Bytes {
    NameIn(DecodeAll(BLOCK_CODE, exts))
  }

  /** Reaching the extensions does not depend on what is then done with them. */
  function Via(data: Bytes, walk: Bytes -> Bytes): Bytes {
    match ExtensionRange(data)
    case None => []
    case Some((start, end)) => walk(data[start..end])
  }

  function ServerNameOf(data: Bytes): Bytes {
    Via(data, Walk)
  }

  /** One turn of the extension loop. */
  lemma Turn(data: Bytes, pos: nat, end: nat)
    requires pos + 4 <= end <= |data|
    ensures var len, next := U16At(data, pos + 2), pos + 4;
            ParseBlock(data[pos..end])
            == if next + len > end then Short
               else Got(Block(U16At(data, pos), data[next..next + len]), data[next + len..end])
  {
    var s := data[pos..end];
    assert U16At(s, 0) == U16At(data, pos) && U16At(s, 2) == U16At(data, pos + 2);
    var len := U16At(s, 2);
    if pos + 4 + len <= end {
      SliceOfSlice(data, pos, end, 4, 4 + len);
      SliceOfSlice(data, pos, end, 4 + len, end - pos);
    }
  }

  /** What the walk does with the block in front. */
  lemma WalkTurn(s: Bytes)
    ensures var p := ParseBlock(s);
            Walk(s) == if !p.Got? then []
                       else
                         var body := p.value.body;
                         if p.value.kind == 0 && |body| < 5 then []
                         else if p.value.kind == 0 && 5 + U16At(body, 3) <= |body| then body[5..5 + U16At(body, 3)]
                         else Walk(p.rest)
  {
    DecodeStep(BLOCK_CODE, s);
    var p := ParseBlock(s);
    if p.Got? {
      var later := DecodeAll(BLOCK_CODE, p.rest);
      assert ([p.value] + later)[1..] == later;
    }
  }

  /** The two together, in the cursor's terms. */
  lemma ExtensionTurn(data: Bytes, at: nat, end: nat)
    requires at + 4 <= end <= |data|
    ensures var len, next := U16At(data, at + 2), at + 4;
            Walk(data[at..end])
            == if next + len > end then []
               else
                 var body := data[next..next + len];
                 if U16At(data, at) == 0 && |body| < 5 then []
                 else if U16At(data, at) == 0 && 5 + U16At(body, 3) <= |body| then body[5..5 + U16At(body, 3)]
                 else Walk(data[next + len..end])
  {
    Turn(data, at, end);
    WalkTurn(data[at..end]);
  }

  /** The cursor code: every index it uses is in range, and its loop ends. */
  method SNIExtract(data: Bytes) returns (name: Bytes)
    ensures name == ServerNameOf(data)
  {
    if |data| < 44 {
      return [];
    }
    if data[0] != 0x16 {
      return [];
    }
    if data[5] != 0x01 {
      return [];
    }
    var pos: nat := 5 + 4;
    pos := pos + 2;
    pos := pos + 32;
    if pos >= |data| {
      assert false;
    }
    var sessionIDLen := data[pos];
    pos := pos + 1 + sessionIDLen;
    if pos + 2 > |data| {
      return [];
    }
    var cipherSuitesLen := U16At(data, pos);
    pos := pos + 2 + cipherSuitesLen;
    if pos + 1 > |data| {
      return [];
    }
    var compMethodsLen := data[pos];
    pos := pos + 1 + compMethodsLen;
    if pos + 2 > |data| {
      return [];
    }
    var extensionsLen := U16At(data, pos);
    pos := pos + 2;
    var end := pos + extensionsLen;
    if end > |data| {
      end := |data|;
    }
    name := WalkExtensions(data, pos, end);
  }

  /** The loop's body as a value: the answer, or where to go on. */
  function TurnOf(data: Bytes, at: nat, end: nat): (Option<Bytes>, nat)
    requires at + 4 <= end <= |data|
  {
    var len, next := U16At(data, at + 2), at + 4;
    if U16At(data, at) != 0 || next + len > end then (None, next + len)
    else
      var body := data[next..next + len];
      if |body| < 5 then (Some([]), next)
      else if 5 + U16At(body, 3) <= |body| then (Some(body[5..5 + U16At(body, 3)]), next)
      else (None, next + len)
  }

  lemma TurnWalks(data: Bytes, at: nat, end: nat)
    requires at + 4 <= end <= |data|
    ensures var (name, pos) := TurnOf(data, at, end);
            Walk(data[at..end]) == if name.Some? then name.value else if pos <= end then Walk(data[pos..end]) else []
  {
    ExtensionTurn(data, at, end);
  }

  method OneExtension(data: Bytes, at: nat, end: nat) returns (name: Option<Bytes>, pos: nat)
    requires at + 4 <= end <= |data|
    ensures pos > at && (name, pos) == TurnOf(data, at, end)
    ensures Walk(data[at..end]) == if name.Some? then name.value else if pos <= end then Walk(data[pos..end]) else []
  {
    TurnWalks(data, at, end);
    name, pos := None, at;
    var extType, extLen := U16At(data, pos), U16At(data, pos + 2);
    pos := pos + 4;
    if extType == 0 && pos + extLen <= end {
      name := NameOfBody(data[pos..pos + extLen]);
      if name.Some? {
        return name, pos;
      }
    }
    pos := pos + extLen;
  }

  /** The branch for the server_name extension. */
  method NameOfBody(sniData: Bytes) returns (name: Option<Bytes>)
    ensures name == if |sniData| < 5 then Some([])
                    else if 5 + U16At(sniData, 3) <= |sniData| then Some(sniData[5..5 + U16At(sniData, 3)])
                    else None
  {
    if |sniData| < 5 {
      return Some([]);
    }
    var nameLen := U16At(sniData, 3);
    if 5 + nameLen <= |sniData| {
      return Some(sniData[5..5 + nameLen]);
    }
    return None;
  }

  method WalkExtensions(data: Bytes, start: nat, end: nat) returns (name: Bytes)
    requires start <= end <= |data|
    ensures name == Walk(data[start..end])
  {
    var pos := start;
    ghost var all := Walk(data[start..end]);
    while pos + 4 <= end
      invariant all == if pos <= end then Walk(data[pos..end]) else []
      decreases end - pos
    {
      var found, next := OneExtension(data, pos, end);
      if found.Some? {
        return found.value;
      }
      pos := next;
    }
    if pos <= end {
      WalkTurn(data[pos..end]);
    }
    return [];
  }

  // ---- What is not a name ----

  /** Data that is too short, no handshake record or no ClientHello has no name. */
  lemma NotAHello(data: Bytes)
    requires |data| < 44 || data[0] != 22 || data[5] != 1
    ensures ServerNameOf(data) == []
  {
  }

  ghost predicate StandsAt(exts: Bytes, name: Bytes, at: nat) {
    2 <= at <= at + |name| <= |exts| && name == exts[at..at + |name|] && U16At(exts, at - 2) == |name|
  }

  lemma StandsLater(exts: Bytes, k: nat, name: Bytes, at: nat)
    requires k <= |exts| && StandsAt(exts[k..], name, at)
    ensures StandsAt(exts, name, k + at)
  {
    assert exts[k..|exts|] == exts[k..];
    SliceOfSlice(exts, k, |exts|, at, at + |name|);
    assert exts[k..][at - 2] == exts[k + at - 2] && exts[k..][at - 1] == exts[k + at - 1];
  }

  lemma StandsFirst(exts: Bytes, n: nat)
    requires n >= 5 && 4 + n <= |exts| && 5 + U16At(exts[4..4 + n], 3) <= n
    ensures var m := U16At(exts[4..4 + n], 3); StandsAt(exts, exts[4..4 + n][5..5 + m], 9)
  {
    var body := exts[4..4 + n];
    SliceOfSlice(exts, 4, 4 + n, 5, 5 + U16At(body, 3));
    assert exts[7] == body[3] && exts[8] == body[4];
  }

  /** What a name is read from: it stands in the data, behind its own length. */
  lemma {:induction false} NameStands(exts: Bytes)
    ensures Walk(exts) != [] ==> exists at: nat :: StandsAt(exts, Walk(exts), at)
    decreases |exts|
  {
    WalkTurn(exts);
    var p := ParseBlock(exts);
    if p.Got? && Walk(exts) != [] {
      var body := p.value.body;
      var n := |body|;
      if p.value.kind == 0 && n >= 5 && 5 + U16At(body, 3) <= n {
        StandsFirst(exts, n);
      } else {
        NameStands(p.rest);
        var at: nat :| StandsAt(p.rest, Walk(p.rest), at);
        StandsLater(exts, 4 + n, Walk(p.rest), at);
      }
    }
  }

  /** A server_name of less than five bytes ends the search with nothing; one whose name does not fit in it, and any
      other extension, is passed over. */
  lemma OtherBlocks(kind: nat, body: Bytes, rest: Bytes)
    requires kind <= 65535 && |body| <= 65535
    ensures var exts := [kind / 256, kind % 256, |body| / 256, |body| % 256] + body + rest;
            && (kind == 0 && |body| < 5 ==> Walk(exts) == [])
            && (kind != 0 || (|body| >= 5 && 5 + 256 * body[3] as int + body[4] as int > |body|) ==>
                  Walk(exts) == Walk(rest))
  {
    var exts := [kind / 256, kind % 256, |body| / 256, |body| % 256] + body + rest;
    assert BlockBytes(Block(kind, body)) == [kind / 256, kind % 256, |body| / 256, |body| % 256] + body;
    BlockParsesBack(Block(kind, body), rest);
    WalkTurn(exts);
  }

  // ---- ClientHello as the standards write it (section 4.1.2 of RFC 8446, section 3 of RFC 6066) ----

  /** A server_name extension holds a host_name entry and possibly further entries; any other extension is opaque. */
  datatype Extension =
    | ServerName(host: Bytes, more: Bytes)
    | Other(kind: nat, body: Bytes)

  datatype Hello = Hello(version: Bytes, random: Bytes, sessionId: Bytes, ciphers: Bytes, methods: Bytes,
                         extensions: seq<Extension>)

  function Kind(e: Extension): nat {
    if e.Other? then e.kind else 0
  }

  function Body(e: Extension): Bytes {
    match e
    case ServerName(host, more) => PutU16BE(3 + |host| + |more|) + [0] + PutU16BE(|host|) + host + more
    case Other(_, body) => body
  }

  function BlocksOf(es: seq<Extension>): (bs: seq<Block>)
    ensures |bs| == |es|
  {
    if es == [] then [] else [Block(Kind(es[0]), Body(es[0]))] + BlocksOf(es[1..])
  }

  function Extensions(es: seq<Extension>): Bytes {
    EncodeAll(BLOCK_CODE, BlocksOf(es))
  }

  predicate ExtensionOk(e: Extension) {
    |Body(e)| <= 65535 && (e.Other? ==> 0 < e.kind <= 65535)
  }

  /** Every length fits its field; the standards allow no more. */
  predicate HelloOk(h: Hello) {
    && |h.version| == 2 && |h.random| == 32 && |h.sessionId| <= 255
    && |h.ciphers| <= 65535 && |h.methods| <= 255
    && (forall e :: e in h.extensions ==> ExtensionOk(e))
    && |Extensions(h.extensions)| <= 65535
  }

  function PutU24BE(n: nat): Bytes {
    [(n / 65536) % 256] + PutU16BE(n)
  }

  /** Record header, handshake header, version and random, for a handshake body of the given length. */
  function Front(h: Hello, length: nat): Bytes {
    [0x16, 3, 1] + PutU16BE(4 + length) + [1] + PutU24BE(length) + h.version + h.random
  }

  /** Up to the session id, the cipher suites, the compression methods, and the extensions' length. */
  function UpToSession(front: Bytes, id: Bytes): Bytes {
    front + [|id| % 256] + id
  }

  function UpToCiphers(front: Bytes, id: Bytes, ciphers: Bytes): Bytes {
    UpToSession(front, id) + PutU16BE(|ciphers|) + ciphers
  }

  function UpToMethods(front: Bytes, id: Bytes, ciphers: Bytes, methods: Bytes): Bytes {
    UpToCiphers(front, id, ciphers) + [|methods| % 256] + methods
  }

  function UpToLength(front: Bytes, id: Bytes, ciphers: Bytes, methods: Bytes, x: nat): (p: Bytes)
    ensures |p| == |front| + 6 + |id| + |ciphers| + |methods|
  {
    UpToMethods(front, id, ciphers, methods) + PutU16BE(x)
  }

  function Serialize(h: Hello): Bytes {
    var exts := Extensions(h.extensions);
    UpToLength(Front(h, Start(h) - 9 + |exts|), h.sessionId, h.ciphers, h.methods, |exts|) + exts
  }

  /** The name the client asked for, and how many extension bytes it takes to have it whole. */
  function Asked(es: seq<Extension>): Bytes {
    if es == [] then [] else if es[0].ServerName? then es[0].host else Asked(es[1..])
  }

  /** How many extensions it takes to have the first server_name whole (one more than there are, if there is none). */
  function NameNumber(es: seq<Extension>): nat {
    if es == [] then 1 else if es[0].ServerName? then 1 else 1 + NameNumber(es[1..])
  }

  function WholeAt(es: seq<Extension>): nat {
    |EncodeAll(BLOCK_CODE, BlocksOf(es)[..Min(NameNumber(es), |es|)])|
  }

  /** Where the extensions start. */
  function Start(h: Hello): nat {
    49 + |h.sessionId| + |h.ciphers| + |h.methods|
  }

  // ---- Proof ----

  predicate BlockOk(b: Block) {
    b.kind <= 65535 && |b.body| <= 65535
  }

  lemma BlockParsesBack(b: Block, rest: Bytes)
    requires BlockOk(b)
    ensures ParseBlock(BlockBytes(b) + rest) == Got(b, rest)
  {
    var s, n := BlockBytes(b) + rest, |b.body|;
    assert s[0] == b.kind / 256 % 256 && s[1] == b.kind % 256 && s[2] == n / 256 % 256 && s[3] == n % 256;
    assert s[4..4 + n] == b.body && s[4 + n..] == rest;
  }

  lemma BlockAccepted(s: Bytes)
    requires ParseBlock(s).Got?
    ensures BlockOk(ParseBlock(s).value) && s == BlockBytes(ParseBlock(s).value) + ParseBlock(s).rest
  {
    var b, n := ParseBlock(s).value, U16At(s, 2);
    assert PutU16BE(b.kind) == [s[0], s[1]] && PutU16BE(n) == [s[2], s[3]];
    assert s == [s[0], s[1]] + [s[2], s[3]] + s[4..4 + n] + s[4 + n..];
  }

  lemma BlocksDelimit()
    ensures Delimits(BLOCK_CODE, BlockOk)
  {
    forall b, rest | BlockOk(b) ensures BLOCK_CODE.parse(BLOCK_CODE.enc(b) + rest) == Got(b, rest) {
      BlockParsesBack(b, rest);
    }
    forall s: Bytes | BLOCK_CODE.parse(s).Got?
      ensures BlockOk(BLOCK_CODE.parse(s).value) && s == BLOCK_CODE.enc(BLOCK_CODE.parse(s).value) + BLOCK_CODE.parse(s).rest
    {
      BlockAccepted(s);
    }
    forall b | BlockOk(b) ensures BLOCK_CODE.enc(b) != [] {
      assert |BlockBytes(b)| >= 4;
    }
    AcceptsDelimits(BLOCK_CODE, BlockOk);
  }

  lemma {:induction false} BlocksOk(es: seq<Extension>)
    requires forall e :: e in es ==> ExtensionOk(e)
    ensures forall b :: b in BlocksOf(es) ==> BlockOk(b)
  {
    if es != [] {
      assert es[0] in es;
      BlocksOk(es[1..]);
    }
  }

  lemma NameField(host: Bytes, more: Bytes)
    requires |host| <= 65535
    ensures var b := Body(ServerName(host, more));
            |b| >= 5 + |host| && U16At(b, 3) == |host| && b[5..5 + |host|] == host
  {
    var b := Body(ServerName(host, more));
    assert b[3] == |host| / 256 % 256 && b[4] == |host| % 256;
  }

  /** The first j extensions name the host exactly when the first server_name is among them. */
  lemma {:induction false} NameInFirst(es: seq<Extension>, j: nat)
    requires (forall e :: e in es ==> ExtensionOk(e)) && j <= |es|
    ensures NameIn(BlocksOf(es)[..j]) == if j >= NameNumber(es) then Asked(es) else []
    decreases |es|
  {
    if j > 0 {
      assert es[0] in es;
      var bs := BlocksOf(es)[..j];
      assert bs[0] == Block(Kind(es[0]), Body(es[0]));
      assert bs[1..] == BlocksOf(es[1..])[..j - 1];
      NameInFirst(es[1..], j - 1);
      if es[0].ServerName? {
        NameField(es[0].host, es[0].more);
      }
    }
  }

  lemma {:induction false} NoName(es: seq<Extension>)
    ensures NameNumber(es) > |es| ==> Asked(es) == []
    ensures NameNumber(es) >= 1
  {
    if es != [] {
      NoName(es[1..]);
    }
  }

  /** Any prefix of the extensions yields the name exactly when it contains the whole server_name. */
  lemma WalkFinds(es: seq<Extension>, k: nat)
    requires (forall e :: e in es ==> ExtensionOk(e)) && k <= |Extensions(es)|
    ensures Walk(Extensions(es)[..k]) == if k >= WholeAt(es) then Asked(es) else []
  {
    var bs, x := BlocksOf(es), Extensions(es)[..k];
    BlocksDelimit();
    BlocksOk(es);
    PrefixDecodes(BLOCK_CODE, BlockOk, bs, x);
    var j, n := |DecodeAll(BLOCK_CODE, x)|, NameNumber(es);
    NameInFirst(es, j);
    NoName(es);
    if n <= |es| {
      if j >= n {
        EncodeAllGrows(BLOCK_CODE, bs, n, j);
      } else {
        EncodeAllGrows(BLOCK_CODE, bs, j + 1, n);
      }
    }
  }

  /** A 16-bit field, seen in any prefix that contains it. */
  lemma FieldSeen(before: Bytes, n: nat, all: Bytes, k: nat)
    requires n <= 65535 && before + PutU16BE(n) <= all && |before| + 2 <= k <= |all|
    ensures U16At(all[..k], |before|) == n
  {
    var upTo := before + PutU16BE(n);
    assert all[|before|] == upTo[|before|] == n / 256 % 256;
    assert all[|before| + 1] == upTo[|before| + 1] == n % 256;
  }

  lemma ByteSeen(before: Bytes, n: nat, blob: Bytes, all: Bytes, k: nat)
    requires n < 256 && before + [n % 256] + blob <= all && |before| < k <= |all|
    ensures all[..k][|before|] == n
  {
  }

  lemma PrefixTrans(a: Bytes, b: Bytes, c: Bytes)
    requires a <= b <= c
    ensures a <= c
  {
  }

  ghost predicate FieldsRead(data: Bytes, s: nat, c: nat, m: nat, x: nat) {
    && MIN_HELLO <= |data| && data[0] == 0x16 && data[5] == 1 && data[43] == s
    && (46 + s <= |data| ==> U16At(data, 44 + s) == c)
    && (47 + s + c <= |data| ==> data[46 + s + c] == m)
    && (49 + s + c + m <= |data| ==> U16At(data, 47 + s + c + m) == x)
  }

  /** Each fixed field, in any prefix of the hello that contains it. */
  lemma FixedFields(front: Bytes, id: Bytes, ciphers: Bytes, methods: Bytes, exts: Bytes, k: nat)
    requires |front| == 43 && front[0] == 0x16 && front[5] == 1
    requires |id| < 256 && |ciphers| <= 65535 && |methods| < 256 && |exts| <= 65535
    requires MIN_HELLO <= k <= |UpToLength(front, id, ciphers, methods, |exts|) + exts|
    ensures FieldsRead((UpToLength(front, id, ciphers, methods, |exts|) + exts)[..k],
                       |id|, |ciphers|, |methods|, |exts|)
  {
    var s, c, m := |id|, |ciphers|, |methods|;
    var p1, p2 := UpToSession(front, id), UpToCiphers(front, id, ciphers);
    var p3, p4 := UpToMethods(front, id, ciphers, methods), UpToLength(front, id, ciphers, methods, |exts|);
    var all := p4 + exts;
    PrefixTrans(p3, p4, all);
    PrefixTrans(p2, p3, all);
    PrefixTrans(p1, p2, all);
    PrefixTrans(front, p1, all);
    assert all[0] == front[0] && all[5] == front[5];
    ByteSeen(front, s, id, all, k);
    PrefixTrans(p1 + PutU16BE(c), p2, all);
    if 46 + s <= k {
      FieldSeen(p1, c, all, k);
    }
    if 47 + s + c <= k {
      ByteSeen(p2, m, methods, all, k);
    }
    if 49 + s + c + m <= k {
      FieldSeen(p3, |exts|, all, k);
    }
  }

  /** Reading the fixed fields of a prefix: it stops early with nothing, or arrives at the extensions. */
  lemma RangeOfPrefix(data: Bytes, s: nat, c: nat, m: nat, x: nat)
    requires |data| <= 49 + s + c + m + x && FieldsRead(data, s, c, m, x)
    ensures ExtensionRange(data) == if |data| >= 49 + s + c + m then Some((49 + s + c + m, |data|)) else None
  {
  }

  lemma TailOfPrefix(pre: Bytes, exts: Bytes, k: nat)
    requires |pre| <= k <= |pre + exts|
    ensures (pre + exts)[..k][|pre|..] == exts[..k - |pre|]
  {
  }

  /** A prefix with these fields leads to its extensions. */
  lemma ViaParts(data: Bytes, start: nat, s: nat, c: nat, m: nat, exts: Bytes, walk: Bytes -> Bytes)
    requires start == 49 + s + c + m && |data| <= start + |exts| && FieldsRead(data, s, c, m, |exts|)
    requires |data| >= start ==> data[start..] == exts[..|data| - start]
    ensures Via(data, walk) == if |data| >= start then walk(exts[..|data| - start]) else []
  {
    RangeOfPrefix(data, s, c, m, |exts|);
    if |data| >= start {
      assert data[start..|data|] == data[start..];
    }
  }

  lemma FrontShape(h: Hello, length: nat)
    requires |h.version| == 2 && |h.random| == 32
    ensures var f := Front(h, length); |f| == 43 && f[0] == 0x16 && f[5] == 1
  {
  }

  lemma ViaPrefix(front: Bytes, id: Bytes, ciphers: Bytes, methods: Bytes, exts: Bytes, k: nat, walk: Bytes -> Bytes)
    requires |front| == 43 && front[0] == 0x16 && front[5] == 1
    requires |id| < 256 && |ciphers| <= 65535 && |methods| < 256 && |exts| <= 65535
    requires k <= |UpToLength(front, id, ciphers, methods, |exts|) + exts|
    ensures var start := 49 + |id| + |ciphers| + |methods|;
            Via((UpToLength(front, id, ciphers, methods, |exts|) + exts)[..k], walk)
            == if k >= start then walk(exts[..k - start]) else []
  {
    var pre := UpToLength(front, id, ciphers, methods, |exts|);
    if k >= MIN_HELLO {
      FixedFields(front, id, ciphers, methods, exts, k);
      if k >= |pre| {
        TailOfPrefix(pre, exts, k);
      }
      ViaParts((pre + exts)[..k], |pre|, |id|, |ciphers|, |methods|, exts, walk);
    }
  }

  lemma NameBehind(front: Bytes, h: Hello, k: nat, pre: Bytes)
    requires HelloOk(h) && |front| == 43 && front[0] == 0x16 && front[5] == 1
    requires pre == UpToLength(front, h.sessionId, h.ciphers, h.methods, |Extensions(h.extensions)|)
    requires k <= |pre + Extensions(h.extensions)|
    ensures Via((pre + Extensions(h.extensions))[..k], Walk)
            == if k >= Start(h) + WholeAt(h.extensions) then Asked(h.extensions) else []
  {
    ViaPrefix(front, h.sessionId, h.ciphers, h.methods, Extensions(h.extensions), k, Walk);
    if k >= Start(h) {
      WalkFinds(h.extensions, k - Start(h));
    }
  }

  lemma NameOfFirst(h: Hello, k: nat)
    requires HelloOk(h) && k <= |Serialize(h)|
    ensures ServerNameOf(Serialize(h)[..k])
            == if k >= Start(h) + WholeAt(h.extensions) then Asked(h.extensions) else []
  {
    var x := |Extensions(h.extensions)|;
    var front := Front(h, Start(h) - 9 + x);
    FrontShape(h, Start(h) - 9 + x);
    NameBehind(front, h, k, UpToLength(front, h.sessionId, h.ciphers, h.methods, x));
  }

  /** Given any prefix of a ClientHello, SNIExtract returns the name asked for exactly when the prefix contains the
      whole server_name extension, and otherwise nothing. */
  lemma NameOfPrefix(h: Hello)
    requires HelloOk(h)
    ensures forall data | data <= Serialize(h) ::
              ServerNameOf(data) == if |data| >= Start(h) + WholeAt(h.extensions) then Asked(h.extensions) else []
  {
    forall data | data <= Serialize(h)
      ensures ServerNameOf(data) == if |data| >= Start(h) + WholeAt(h.extensions) then Asked(h.extensions) else []
    {
      NameOfFirst(h, |data|);
      assert data == Serialize(h)[..|data|];
    }
  }

  /** The whole hello. */
  lemma NameOfHello(h: Hello)
    requires HelloOk(h)
    ensures ServerNameOf(Serialize(h)) == Asked(h.extensions)
  {
    NameOfPrefix(h);
    var bs := BlocksOf(h.extensions);
    EncodeAllGrows(BLOCK_CODE, bs, Min(NameNumber(h.extensions), |bs|), |bs|);
    assert bs[..|bs|] == bs;
    HelloLength(h);
  }

  lemma HelloLength(h: Hello)
    requires |h.version| == 2 && |h.random| == 32
    ensures |Serialize(h)| == Start(h) + |Extensions(h.extensions)|
  {
    FrontShape(h, Start(h) - 9 + |Extensions(h.extensions)|);
  }
}
