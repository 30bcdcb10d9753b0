/** The waiting protocol of internal/session/manager.go: uploadMu, uploadCond and the stream flag that is set outside
    the lock. Steps are the lock-held regions, cut where the flag may change. */
module UploadWakeup {
  /** A goroutine in ReadUpload. AtTop and PastStream hold uploadMu. */
  datatype Reader =
    | Outside     // not in ReadUpload
    | AtTop       // top of the loop, streamMode not yet looked at
    | PastStream  // saw streamMode == false
    | Asleep      // in uploadCond.Wait
    | Roused      // signalled, must take the lock again

  /** `present` are the chunk numbers in uploadBuf; `announcing` means the pipe exists and its Broadcast is still to come. */
  datatype State = State(readers: seq<Reader>, present: set<int>, next: int, done: bool, stream: bool, announcing: bool)

  datatype Step =
    | Enter(r: nat)
    | CheckStream(r: nat)
    | CheckRest(r: nat)
    | Relock(r: nat)
    | PushChunk(chunk: int, signalled: nat)  // Signal wakes one sleeper of the runtime's choice
    | CloseAll
    | StoreStream
    | BroadcastStream

  function Init(n: nat): State {
    State(seq(n, _ => Outside), {}, 0, false, false, false)
  }

  predicate Holds(r: Reader) {
    r == AtTop || r == PastStream
  }

  predicate LockFree(s: State) {
    forall r :: r in s.readers ==> !Holds(r)
  }

  function RouseAll(readers: seq<Reader>): (woken: seq<Reader>)
    ensures |woken| == |readers|
    ensures forall i :: 0 <= i < |readers| ==> woken[i] == if readers[i] == Asleep then Roused else readers[i]
  {
    seq(|readers|, i requires 0 <= i < |readers| => if readers[i] == Asleep then Roused else readers[i])
  }

  /** Signal: wakes `pick` if it sleeps; it may fail to wake anyone only when nobody sleeps. */
  function RouseOne(readers: seq<Reader>, pick: nat): seq<Reader> {
    if pick < |readers| && readers[pick] == Asleep then readers[pick := Roused] else readers
  }

  predicate Enabled(s: State, e: Step) {
    match e
    case Enter(r) => r < |s.readers| && s.readers[r] == Outside && LockFree(s)
    case CheckStream(r) => r < |s.readers| && s.readers[r] == AtTop
    case CheckRest(r) => r < |s.readers| && s.readers[r] == PastStream
    case Relock(r) => r < |s.readers| && s.readers[r] == Roused && LockFree(s)
    case PushChunk(_, pick) =>
      LockFree(s) && (Asleep in s.readers ==> pick < |s.readers| && s.readers[pick] == Asleep)
    case CloseAll => LockFree(s)
    case StoreStream => !s.stream
    case BroadcastStream => s.announcing && LockFree(s)
  }

  function Apply(s: State, e: Step): State {
    if !Enabled(s, e) then s
    else match e
      case Enter(r) => s.(readers := s.readers[r := AtTop])
      case CheckStream(r) => s.(readers := s.readers[r := if s.stream then Outside else PastStream])
      case CheckRest(r) =>
        if s.done then s.(readers := s.readers[r := Outside])
        else if s.next in s.present then
          s.(readers := s.readers[r := Outside], present := s.present - {s.next}, next := s.next + 1)
        else s.(readers := s.readers[r := Asleep])
      case Relock(r) => s.(readers := s.readers[r := AtTop])
      case PushChunk(chunk, pick) =>
        if s.done then s
        else s.(present := s.present + {chunk}, readers := RouseOne(s.readers, pick))
      case CloseAll => s.(done := true, present := {}, readers := RouseAll(s.readers))
      case StoreStream => s.(stream := true, announcing := true)
      case BroadcastStream => s.(announcing := false, readers := RouseAll(s.readers))
  }

  function Reach(steps: seq<Step>, n: nat): State {
    if steps == [] then Init(n)
    else Apply(Reach(steps[..|steps| - 1], n), steps[|steps| - 1])
  }

  /** A sleeping reader has nothing to do, or the wakeup it needs is still on its way. */
  ghost predicate NoLostWakeup(s: State) {
    Asleep in s.readers ==> !s.done && s.next !in s.present && (!s.stream || s.announcing)
  }

  ghost predicate NeverLosesWakeup(n: nat) {
    forall steps :: NoLostWakeup(Reach(steps, n))
  }

  /** With one reader: it sleeps only for a reason, and the lock keeps a Broadcast from slipping between its check of
      the stream flag and its Wait. */
  ghost predicate Inv(s: State) {
    && |s.readers| <= 1
    && NoLostWakeup(s)
    && (PastStream in s.readers && s.stream ==> s.announcing)
  }

  lemma InvStep(s: State, e: Step)
    requires Inv(s)
    ensures Inv(Apply(s, e))
  {
    if |s.readers| == 1 {
      assert s.readers == [s.readers[0]];
      assert s.readers[0] in s.readers;
    }
  }

  lemma {:induction false} InvReach(steps: seq<Step>, n: nat)
    requires n <= 1
    ensures Inv(Reach(steps, n))
  {
    if steps != [] {
      InvReach(steps[..|steps| - 1], n);
      InvStep(Reach(steps[..|steps| - 1], n), steps[|steps| - 1]);
    }
  }

  /** Two readers: chunk 1 rouses the first, which finds its turn has not come and sleeps again, now behind the second;
      chunk 0 rouses the second, which takes it and leaves; and the first sleeps on although chunk 1 is there. Each
      Signal wakes the one that has waited longest. */
  function StrandedRun(): seq<Step> {
    [Enter(0), CheckStream(0), CheckRest(0), Enter(1), CheckStream(1), CheckRest(1),
     PushChunk(1, 0), Relock(0), CheckStream(0), CheckRest(0),
     PushChunk(0, 1), Relock(1), CheckStream(1), CheckRest(1)]
  }

  lemma FollowThree(steps: seq<Step>, k: nat, n: nat)
    requires k + 2 < |steps|
    ensures Reach(steps[..k + 3], n)
            == Apply(Apply(Apply(Reach(steps[..k], n), steps[k]), steps[k + 1]), steps[k + 2])
  {
    FollowTo(steps, k, n);
    FollowTo(steps, k + 1, n);
    FollowTo(steps, k + 2, n);
  }

  lemma {:induction false} FollowTo(steps: seq<Step>, k: nat, n: nat)
    requires k < |steps|
    ensures Reach(steps[..k + 1], n) == Apply(Reach(steps[..k], n), steps[k])
  {
    assert steps[..k + 1][..k] == steps[..k];
  }

  /** A packet-mode state whose readers beyond the first two never arrive. */
  ghost function Pair(a: Reader, b: Reader, n: nat, present: set<int>, next: int): State
    requires n >= 2
  {
    State([a, b] + seq(n - 2, _ => Outside), present, next, false, false, false)
  }

  lemma PairLock(a: Reader, b: Reader, n: nat, present: set<int>, next: int)
    requires n >= 2
    ensures LockFree(Pair(a, b, n, present, next)) <==> !Holds(a) && !Holds(b)
  {
    var rs := Pair(a, b, n, present, next).readers;
    assert rs[0] == a && rs[1] == b;
  }

  lemma PairUpdate(a: Reader, b: Reader, n: nat, present: set<int>, next: int, c: Reader)
    requires n >= 2
    ensures var rs := Pair(a, b, n, present, next).readers;
            && rs[0] == a && rs[1] == b
            && rs[0 := c] == Pair(c, b, n, present, next).readers
            && rs[1 := c] == Pair(a, c, n, present, next).readers
  {
  }

  /** One of the first two goes through the lock once: it takes the next chunk and leaves, or falls asleep. */
  lemma Tries(a: Reader, b: Reader, n: nat, present: set<int>, next: int)
    requires n >= 2 && !Holds(a) && !Holds(b)
    ensures var s := Pair(a, b, n, present, next);
            var leaves := next in present;
            var p, k := if leaves then present - {next} else present, if leaves then next + 1 else next;
            && (a == Roused ==> Apply(Apply(Apply(s, Relock(0)), CheckStream(0)), CheckRest(0))
                                == Pair(if leaves then Outside else Asleep, b, n, p, k))
            && (a == Outside ==> Apply(Apply(Apply(s, Enter(0)), CheckStream(0)), CheckRest(0))
                                 == Pair(if leaves then Outside else Asleep, b, n, p, k))
            && (b == Roused ==> Apply(Apply(Apply(s, Relock(1)), CheckStream(1)), CheckRest(1))
                                == Pair(a, if leaves then Outside else Asleep, n, p, k))
            && (b == Outside ==> Apply(Apply(Apply(s, Enter(1)), CheckStream(1)), CheckRest(1))
                                 == Pair(a, if leaves then Outside else Asleep, n, p, k))
  {
    PairLock(a, b, n, present, next);
    PairUpdate(a, b, n, present, next, AtTop);
    if a == Outside || a == Roused {
      PairUpdate(AtTop, b, n, present, next, PastStream);
      PairUpdate(PastStream, b, n, present, next, Asleep);
      PairUpdate(PastStream, b, n, present, next, Outside);
    }
    if b == Outside || b == Roused {
      PairUpdate(a, AtTop, n, present, next, PastStream);
      PairUpdate(a, PastStream, n, present, next, Asleep);
      PairUpdate(a, PastStream, n, present, next, Outside);
    }
  }

  lemma PushRouses(n: nat, present: set<int>, next: int, chunk: int)
    requires n >= 2
    ensures var s := Pair(Asleep, Asleep, n, present, next);
            && Apply(s, PushChunk(chunk, 0)) == Pair(Roused, Asleep, n, present + {chunk}, next)
            && Apply(s, PushChunk(chunk, 1)) == Pair(Asleep, Roused, n, present + {chunk}, next)
  {
    PairLock(Asleep, Asleep, n, present, next);
    PairUpdate(Asleep, Asleep, n, present, next, Roused);
  }

  lemma BothSleep(n: nat)
    requires n >= 2
    ensures Reach(StrandedRun()[..6], n) == Pair(Asleep, Asleep, n, {}, 0)
  {
    var run := StrandedRun();
    assert Reach(run[..0], n) == Pair(Outside, Outside, n, {}, 0);
    FollowThree(run, 0, n);
    Tries(Outside, Outside, n, {}, 0);
    assert Reach(run[..3], n) == Pair(Asleep, Outside, n, {}, 0);
    FollowThree(run, 3, n);
    Tries(Asleep, Outside, n, {}, 0);
  }

  lemma StrandedStart(n: nat)
    requires n >= 2
    ensures Reach(StrandedRun()[..7], n) == Pair(Roused, Asleep, n, {1}, 0)
  {
    BothSleep(n);
    FollowTo(StrandedRun(), 6, n);
    PushRouses(n, {}, 0, 1);
  }

  lemma StrandedMiddle(n: nat)
    requires n >= 2
    ensures Reach(StrandedRun()[..11], n) == Pair(Asleep, Roused, n, {0, 1}, 0)
  {
    var run := StrandedRun();
    StrandedStart(n);
    FollowThree(run, 7, n);
    Tries(Roused, Asleep, n, {1}, 0);
    FollowTo(run, 10, n);
    PushRouses(n, {1}, 0, 0);
    assert {1} + {0} == {0, 1};
  }

  lemma StrandedReader(n: nat)
    requires n >= 2
    ensures !NoLostWakeup(Reach(StrandedRun(), n))
  {
    var run := StrandedRun();
    StrandedMiddle(n);
    FollowThree(run, 11, n);
    Tries(Asleep, Roused, n, {0, 1}, 0);
    assert {0, 1} - {0} == {1};
    assert run[..14] == run;
    assert Pair(Asleep, Outside, n, {1}, 1).readers[0] == Asleep;
  }

  /** Signal is enough exactly for one upload reader. */
  lemma NoLostWakeupExactly(n: nat)
    ensures NeverLosesWakeup(n) <==> n <= 1
  {
    if n <= 1 {
      forall steps ensures NoLostWakeup(Reach(steps, n)) {
        InvReach(steps, n);
      }
    } else {
      StrandedReader(n);
    }
  }

  /** The reader is never stuck: unless it is outside or rightly asleep, one of its own steps can be taken. */
  lemma ReaderCanMove(steps: seq<Step>)
    ensures var s := Reach(steps, 1);
            |s.readers| == 1 &&
            (s.readers[0] == Asleep
               || Enabled(s, Enter(0)) || Enabled(s, CheckStream(0)) || Enabled(s, CheckRest(0)) || Enabled(s, Relock(0)))
  {
    OneReader(steps);
    var s := Reach(steps, 1);
    assert s.readers == [s.readers[0]];
  }

  lemma {:induction false} OneReader(steps: seq<Step>)
    ensures |Reach(steps, 1).readers| == 1
  {
    if steps != [] {
      OneReader(steps[..|steps| - 1]);
    }
  }
}
