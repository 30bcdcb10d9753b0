/** internal/session/download_buffer.go: the sliding replay window of the download direction. */
module DownloadBuffers {
  import opened Common

  const DEFAULT_DOWNLOAD_BUFFER_BYTES: nat := 4 * 1024 * 1024

  datatype Error = NoError | SessionClosed | OffsetTooOld

  /** What a download buffer means: every byte ever written, and how far an active reader has acknowledged.
      Nothing is ever dropped from `bytes`; the class below keeps only a window of it. */
  datatype Log = Log(bytes: Bytes, delivered: nat, maxRetain: nat, done: bool, token: bool) {
    predicate Sane() {
      0 < maxRetain && delivered <= |bytes|
    }

    /** The oldest offset that must stay readable. */
    function Floor(): nat {
      if delivered > maxRetain then delivered - maxRetain else 0
    }
  }

  datatype ReadResult = ReadResult(data: Bytes, off: int, err: Error)

  function EmptyLog(maxRetain: int): Log {
    Log([], 0, if maxRetain <= 0 then DEFAULT_DOWNLOAD_BUFFER_BYTES else maxRetain, false, false)
  }

  function Appended(l: Log, p: Bytes): Log {
    if l.done then l else l.(bytes := l.bytes + p, token := true)
  }

  function Advanced(l: Log, off: int): Log {
    l.(delivered := Max(l.delivered, Min(off, |l.bytes|)))
  }

  function Finished(l: Log): Log {
    l.(done := true, token := true)
  }

  function ReadAt(l: Log, off: int, room: nat): ReadResult {
    if off < l.Floor() then ReadResult([], off, OffsetTooOld)
    else if off >= |l.bytes| then ReadResult([], off, if l.done then SessionClosed else NoError)
    else
      var n := Min(room, |l.bytes| - off);
      ReadResult(l.bytes[off..off + n], off + n, NoError)
  }

  /** body is the stretch of the log that starts at `start`. */
  ghost predicate Carries(log: Bytes, start: nat, body: Bytes) {
    body == [] || (start + |body| <= |log| && body == log[start..start + |body|])
  }

  lemma CarriesGrows(log: Bytes, longer: Bytes, start: nat, body: Bytes)
    requires Carries(log, start, body) && log <= longer
    ensures Carries(longer, start, body)
  {
    if body != [] {
      assert longer[..|log|] == log;
    }
  }

  lemma CarriesMore(log: Bytes, start: nat, body: Bytes, chunk: Bytes, m: nat)
    requires Carries(log, start, body) && start + |body| + |chunk| <= |log| && m <= |chunk|
    requires chunk == log[start + |body|..start + |body| + |chunk|]
    ensures Carries(log, start, body + chunk[..m])
  {
  }

  /** The buffer itself. `log` is the history it stands for. */
  class DownloadBuffer {
    var buf: Bytes
    var discarded: int
    var delivered: int
    var maxRetain: int
    var done: bool
    var notify: bool  // the one-slot channel: does it hold a token?
    ghost var log: Bytes

    /** The window is a suffix of the history, and reaches back to exactly the floor. */
    ghost predicate Valid()
      reads this
    {
      && Windowed()
      && discarded == View().Floor()
    }

    ghost predicate Windowed()
      reads this
    {
      && 0 < maxRetain
      && 0 <= discarded <= delivered <= |log|
      && discarded <= View().Floor()
      && buf == log[discarded..]
    }

    ghost function View(): Log
      reads this
      requires 0 <= delivered && 0 <= maxRetain
    {
      Log(log, delivered, maxRetain, done, notify)
    }

    constructor (maxRetain: int)
      ensures Valid()
      ensures View() == EmptyLog(maxRetain)
      ensures this.maxRetain == if maxRetain > 0 then maxRetain else 4_194_304
    {
      this.buf := [];
      this.log := [];
      this.discarded := 0;
      this.delivered := 0;
      this.done := false;
      this.notify := false;
      this.maxRetain := if maxRetain <= 0 then DEFAULT_DOWNLOAD_BUFFER_BYTES else maxRetain;
    }

    /** Appends to the history; the compaction it may trigger changes nothing, because Advance already compacted. */
    method Write(p: Bytes) returns (n: int, err: Error)
      requires Valid()
      modifies this
      ensures Valid() && View() == Appended(old(View()), p)
      ensures buf == if old(done) then old(buf) else old(buf) + p
      ensures discarded == old(discarded)
      ensures if old(done) then n == 0 && err == SessionClosed else n == |p| && err == NoError
    {
      if done {
        return 0, SessionClosed;
      }
      buf := buf + p;
      log := log + p;
      if |buf| > 2 * maxRetain {
        CompactLocked();
      }
      notify := true;
      return |p|, NoError;
    }

    method Advance(off: int)
      requires Valid()
      modifies this
      ensures Valid() && View() == Advanced(old(View()), off)
    {
      var end := discarded + |buf|;
      var clamped := if off > end then end else off;
      if clamped <= delivered {
        return;
      }
      delivered := clamped;
      CompactLocked();
    }

    /** Drops down to the floor and no further. Two guards of the code never fire. */
    method CompactLocked()
      requires Windowed()
      modifies this`buf, this`discarded
      ensures Valid()
      ensures old(discarded) == old(View().Floor()) ==> buf == old(buf)
    {
      if delivered <= discarded {
        return;
      }
      var dropTo := delivered - maxRetain;
      if dropTo <= discarded {
        return;
      }
      var drop := dropTo - discarded;
      if drop <= 0 || drop > |buf| {
        assert false;
      } else if |buf| - drop == 0 {
        assert false;
      } else {
        buf := buf[drop..];
        discarded := dropTo;
      }
    }

    method Close()
      requires Valid()
      modifies this
      ensures Valid() && View() == Finished(old(View()))
      ensures buf == old(buf)
    {
      done := true;
      notify := true;
    }

    /** Copies into the caller's buffer what the history holds at an absolute offset. */
    method ReadFrom(offset: int, p: array<byte>) returns (n: nat, newOffset: int, err: Error)
      requires Valid()
      modifies p
      ensures n <= p.Length
      ensures ReadResult(p[..n], newOffset, err) == ReadAt(View(), offset, p.Length)
      ensures p[n..] == old(p[n..])
    {
      if offset < discarded {
        return 0, offset, OffsetTooOld;
      }
      var local := offset - discarded;
      if local >= |buf| {
        return 0, offset, if done then SessionClosed else NoError;
      }
      n := Min(p.Length, |buf| - local);
      forall i | 0 <= i < n {
        p[i] := buf[local + i];
      }
      assert p[..n] == buf[local..local + n];
      SliceOfSlice(log, discarded, |log|, local, local + n);
      return n, offset + n, NoError;
    }

    /** Receiving from the notify channel empties its one slot. */
    method TakeToken()
      requires Valid() && notify
      modifies this`notify
      ensures Valid() && View() == old(View()).(token := false)
    {
      notify := false;
    }

    /** The memory held never exceeds what is undelivered plus the replay window. */
    method Len() returns (n: nat)
      requires Valid()
      ensures n == |log| - View().Floor()
      ensures n <= (|log| - delivered) + maxRetain
    {
      n := |buf|;
    }
  }

  // ---- Histories of calls ----

  /** TakeCall is a receive from the notify channel, if it holds a token. */
  datatype Call = WriteCall(p: Bytes) | AdvanceCall(off: int) | CloseCall | TakeCall

  function Do(l: Log, c: Call): Log {
    match c
    case WriteCall(p) => Appended(l, p)
    case AdvanceCall(off) => Advanced(l, off)
    case CloseCall => Finished(l)
    case TakeCall => l.(token := false)
  }

  function After(calls: seq<Call>, maxRetain: int): Log {
    if calls == [] then EmptyLog(maxRetain)
    else Do(After(calls[..|calls| - 1], maxRetain), calls[|calls| - 1])
  }

  /** Reference: the bytes of the writes that come before the first Close. */
  function Accepted(calls: seq<Call>): Bytes {
    if calls == [] || calls[0].CloseCall? then []
    else (if calls[0].WriteCall? then calls[0].p else []) + Accepted(calls[1..])
  }

  /** Reference: the k-th call's offset cut to what had been written by then; 0 for other calls. */
  function ClampedAt(calls: seq<Call>, k: nat): int
    requires k < |calls|
  {
    if calls[k].AdvanceCall? then Min(calls[k].off, |Accepted(calls[..k])|) else 0
  }

  /** d is the largest clamped offset ever passed to Advance (0 before the first). */
  ghost predicate IsPeak(calls: seq<Call>, d: int) {
    && d >= 0
    && (forall k :: 0 <= k < |calls| ==> ClampedAt(calls, k) <= d)
    && (d == 0 || exists k :: 0 <= k < |calls| && ClampedAt(calls, k) == d)
  }

  lemma {:induction false} AcceptedSnoc(calls: seq<Call>, c: Call)
    ensures Accepted(calls + [c]) ==
            if CloseCall in calls || !c.WriteCall? then Accepted(calls) else Accepted(calls) + c.p
  {
    if calls == [] {
      assert Accepted([c][1..]) == [];
    } else {
      assert (calls + [c])[1..] == calls[1..] + [c];
      AcceptedSnoc(calls[1..], c);
      assert calls == [calls[0]] + calls[1..];
    }
  }

  lemma ClampedInPrefix(calls: seq<Call>, n: nat, k: nat)
    requires k < n <= |calls|
    ensures ClampedAt(calls[..n], k) == ClampedAt(calls, k)
  {
    assert calls[..n][..k] == calls[..k];
  }

  /** The peak after one more call. */
  lemma PeakSnoc(calls: seq<Call>, c: Call, d: int)
    requires IsPeak(calls, d)
    ensures IsPeak(calls + [c], if c.AdvanceCall? then Max(d, Min(c.off, |Accepted(calls)|)) else d)
  {
    var all, n := calls + [c], |calls|;
    assert all[..n] == calls;
    forall k | 0 <= k < n ensures ClampedAt(all, k) == ClampedAt(calls, k) {
      ClampedInPrefix(all, n, k);
    }
    if d != 0 {
      var k :| 0 <= k < n && ClampedAt(calls, k) == d;
      assert ClampedAt(all, k) == d;
    }
    assert ClampedAt(all, n) == if c.AdvanceCall? then Min(c.off, |Accepted(calls)|) else 0;
  }

  /** After any calls, the log holds exactly the accepted bytes and the watermark is the peak of the Advances. */
  lemma {:induction false} HistoryOf(calls: seq<Call>, maxRetain: int)
    ensures var l := After(calls, maxRetain);
            && l.Sane() && l.maxRetain == (if maxRetain > 0 then maxRetain else 4_194_304)
            && l.bytes == Accepted(calls)
            && l.done == (CloseCall in calls)
            && IsPeak(calls, l.delivered)
  {
    if calls != [] {
      var n := |calls| - 1;
      HistoryOf(calls[..n], maxRetain);
      assert calls == calls[..n] + [calls[n]];
      AcceptedSnoc(calls[..n], calls[n]);
      PeakSnoc(calls[..n], calls[n], After(calls[..n], maxRetain).delivered);
    }
  }

  /** An offset is refused as too old exactly when it is more than maxRetain behind the peak. */
  lemma ResumeExactly(calls: seq<Call>, maxRetain: int, peak: int, off: int, room: nat)
    requires IsPeak(calls, peak)
    ensures var l := After(calls, maxRetain);
            ReadAt(l, off, room).err == OffsetTooOld <==> off < 0 || off < peak - l.maxRetain
  {
    HistoryOf(calls, maxRetain);
    var l := After(calls, maxRetain);
    PeakUnique(calls, peak, l.delivered);
  }

  lemma PeakUnique(calls: seq<Call>, a: int, b: int)
    requires IsPeak(calls, a) && IsPeak(calls, b)
    ensures a == b
  {
  }

  /** After Close, "session closed" is reported exactly at or past the end, and every retained byte is still served. */
  lemma DrainAfterClose(calls: seq<Call>, maxRetain: int, off: int, room: nat)
    requires CloseCall in calls && room > 0
    ensures var l := After(calls, maxRetain);
            var r := ReadAt(l, off, room);
            && (r.err == SessionClosed <==> off >= |Accepted(calls)|)
            && (l.Floor() <= off < |Accepted(calls)| ==>
                  r.err == NoError && off < r.off <= |Accepted(calls)| && r.data == Accepted(calls)[off..r.off])
  {
    HistoryOf(calls, maxRetain);
  }
}
