/** Bytes, options and the few sequence facts every other module uses. */
module Common {

  type byte = x: int | 0 <= x < 256
  type Bytes = seq<byte>

  datatype Option<+T> = None | Some(value: T)

  function Min(a: int, b: int): (m: int)
    ensures m <= a && m <= b && (m == a || m == b)
  {
    if a <= b then a else b
  }

  function Max(a: int, b: int): (m: int)
    ensures m >= a && m >= b && (m == a || m == b)
  {
    if a >= b then a else b
  }

  /** Go's copy: as much as fits. */
  method CopyTo(p: array<byte>, data: Bytes) returns (n: nat)
    modifies p
    ensures n == Min(p.Length, |data|)
    ensures p[..n] == data[..n] && p[n..] == old(p[n..])
  {
    n := Min(p.Length, |data|);
    forall i | 0 <= i < n {
      p[i] := data[i];
    }
  }

  /** A slice of a slice is a slice. */
  lemma SliceOfSlice(s: Bytes, a: nat, b: nat, c: nat, d: nat)
    requires a <= b <= |s| && c <= d <= b - a
    ensures s[a..b][c..d] == s[a + c..a + d]
  {
    var x, y := s[a..b][c..d], s[a + c..a + d];
    assert |x| == |y|;
    forall i | 0 <= i < |x| ensures x[i] == y[i] {
    }
  }

  /** The concatenation of a list of byte strings. */
  function Flatten(ss: seq<Bytes>): Bytes {
    if ss == [] then [] else ss[0] + Flatten(ss[1..])
  }

  lemma {:induction false} FlattenConcat(a: seq<Bytes>, b: seq<Bytes>)
    ensures Flatten(a + b) == Flatten(a) + Flatten(b)
  {
    if a == [] {
      assert a + b == b;
    } else {
      assert (a + b)[1..] == a[1..] + b;
      FlattenConcat(a[1..], b);
    }
  }

  lemma FlattenSnoc(a: seq<Bytes>, x: Bytes)
    ensures Flatten(a + [x]) == Flatten(a) + x
  {
    FlattenConcat(a, [x]);
    assert Flatten([x]) == x + Flatten([]);
  }

  /** A longer list of byte strings has a longer concatenation. */
  lemma FlattenPrefix(a: seq<Bytes>, k: nat)
    requires k <= |a|
    ensures Flatten(a[..k]) <= Flatten(a)
  {
    assert a == a[..k] + a[k..];
    FlattenConcat(a[..k], a[k..]);
  }

  /** A write cut for a layer with a size limit: one piece if it fits (even an empty one), else pieces of maxChunk bytes. */
  function Cut(p: Bytes, maxChunk: nat): seq<Bytes>
    requires maxChunk > 0
  {
    if |p| <= maxChunk then [p] else [p[..maxChunk]] + Cut(p[maxChunk..], maxChunk)
  }

  lemma {:induction false} CutPieces(p: Bytes, maxChunk: nat)
    requires maxChunk > 0
    ensures var cs := Cut(p, maxChunk);
            && |cs| >= 1
            && Flatten(cs) == p
            && (forall k :: 0 <= k < |cs| ==> |cs[k]| <= maxChunk)
            && (forall k :: 0 <= k < |cs| - 1 ==> |cs[k]| == maxChunk)
            && (p != [] ==> forall k :: 0 <= k < |cs| ==> cs[k] != [])
  {
    if |p| <= maxChunk {
      assert Flatten([p]) == p + Flatten([]);
    } else {
      CutPieces(p[maxChunk..], maxChunk);
      var cs, rest := Cut(p, maxChunk), Cut(p[maxChunk..], maxChunk);
      assert cs[1..] == rest;
      assert p == p[..maxChunk] + p[maxChunk..];
    }
  }

  /** uint16(n) stored low byte first, as binary.LittleEndian.PutUint16 does. */
  function PutU16LE(n: nat): (b: Bytes)
    ensures |b| == 2
  {
    [n % 256, (n / 256) % 256]
  }

  function GetU16LE(b: Bytes): (n: nat)
    requires |b| == 2
    ensures n < 65536
  {
    (b[0] as int) + 256 * (b[1] as int)
  }

  /** uint16(n) stored high byte first. */
  function PutU16BE(n: nat): (b: Bytes)
    ensures |b| == 2
  {
    [(n / 256) % 256, n % 256]
  }

  function GetU16BE(b: Bytes): (n: nat)
    requires |b| == 2
    ensures n < 65536
  {
    256 * (b[0] as int) + (b[1] as int)
  }

  /** Storing and reading back a 16-bit field keeps the value modulo 2^16. */
  lemma U16RoundTrip(n: nat)
    ensures GetU16LE(PutU16LE(n)) == n % 65536
    ensures GetU16BE(PutU16BE(n)) == n % 65536
  {
    var h := n / 256;
    assert n == 256 * h + n % 256;
    assert h == 256 * (h / 256) + h % 256;
    assert n == 65536 * (h / 256) + (256 * (h % 256) + n % 256);
  }

  lemma U16Unique(b: Bytes)
    requires |b| == 2
    ensures PutU16LE(GetU16LE(b)) == b
    ensures PutU16BE(GetU16BE(b)) == b
  {
  }
}
