/** internal/throttle/detector.go and adaptive.go: suspicion by samples, and the answer to it. */
module Throttle {
  import opened Common

  const MS: int := 1_000_000
  const BASELINE_SAMPLES: nat := 5

  datatype State = Normal | Suspected | Throttled

  /** After defaults: every field is positive. */
  datatype Config = Config(rttSpikeMs: int, dropPct: int, windowSize: nat, confirmCount: nat) {
    predicate Set() {
      rttSpikeMs > 0 && dropPct > 0 && windowSize > 0 && confirmCount > 0
    }
  }

  datatype Sample = Rtt(ns: int) | Throughput(bps: real)

  /** Everything the detector remembers. */
  datatype Memory = Memory(rtts: seq<int>, tputs: seq<real>, baseRtt: int, baseTput: real, count: nat, state: State)

  const BLANK := Memory([], [], 0, 0.0, 0, Normal)

  function Kept<T>(xs: seq<T>, size: nat): seq<T> {
    if |xs| > size then xs[1..] else xs
  }

  function Sum(xs: seq<real>): real {
    if xs == [] then 0.0 else Sum(xs[..|xs| - 1]) + xs[|xs| - 1]
  }

  function Median(xs: seq<int>): int {
    if xs == [] then 0 else xs[|xs| / 2]
  }

  function Average(xs: seq<real>): real {
    if xs == [] then 0.0 else Sum(xs) / (|xs| as real)
  }

  function Stored(c: Config, m: Memory, s: Sample): Memory {
    match s
    case Rtt(ns) =>
      var xs := Kept(m.rtts + [ns], c.windowSize);
      m.(rtts := xs, baseRtt := if |xs| <= BASELINE_SAMPLES then Median(xs) else m.baseRtt)
    case Throughput(bps) =>
      var xs := Kept(m.tputs + [bps], c.windowSize);
      m.(tputs := xs, baseTput := if |xs| <= BASELINE_SAMPLES then Average(xs) else m.baseTput)
  }

  predicate RttSpike(c: Config, m: Memory) {
    m.baseRtt > 0 && |m.rtts| >= 3 &&
    var recent := m.rtts[|m.rtts| - 1];
    recent > c.rttSpikeMs * MS && recent > m.baseRtt * 3
  }

  predicate ThroughputDrop(c: Config, m: Memory) {
    m.baseTput > 0.0 && |m.tputs| >= 3 &&
    (1.0 - m.tputs[|m.tputs| - 1] / m.baseTput) * 100.0 >= c.dropPct as real
  }

  predicate Suspicious(c: Config, m: Memory) {
    RttSpike(c, m) || ThroughputDrop(c, m)
  }

  function Judged(c: Config, m: Memory, suspected: bool): Memory {
    if !suspected then m.(count := 0, state := Normal)
    else m.(count := m.count + 1, state := if m.count + 1 >= c.confirmCount then Throttled else Suspected)
  }

  function Step(c: Config, m: Memory, s: Sample): Memory {
    var stored := Stored(c, m, s);
    Judged(c, stored, Suspicious(c, stored))
  }

  class Detector {
    const config: Config
    var rttSamples: seq<int>
    var tputSamples: seq<real>
    var baselineRTT: int
    var baselineTput: real
    var suspectedCount: nat
    var state: State
    var notified: seq<State>  // the states its listeners were told, in order

    ghost function View(): Memory
      reads this
    {
      Memory(rttSamples, tputSamples, baselineRTT, baselineTput, suspectedCount, state)
    }

    constructor (config: Config)
      ensures this.config == config && View() == BLANK && notified == []
    {
      this.config := config;
      rttSamples, tputSamples := [], [];
      baselineRTT, baselineTput, suspectedCount := 0, 0.0, 0;
      state := Normal;
      notified := [];
    }

    method AvgThroughput() returns (avg: real)
      ensures avg == Average(tputSamples)
    {
      if |tputSamples| == 0 {
        return 0.0;
      }
      var sum := 0.0;
      for i := 0 to |tputSamples|
        invariant sum == Sum(tputSamples[..i])
      {
        assert tputSamples[..i + 1][..i] == tputSamples[..i];
        sum := sum + tputSamples[i];
      }
      assert tputSamples[..|tputSamples|] == tputSamples;
      return sum / (|tputSamples| as real);
    }

    method RecordRTT(rtt: int)
      modifies this
      ensures View() == Step(config, old(View()), Rtt(rtt))
      ensures notified == old(notified) + if state != old(state) then [state] else []
    {
      rttSamples := rttSamples + [rtt];
      if |rttSamples| > config.windowSize {
        rttSamples := rttSamples[1..];
      }
      if |rttSamples| <= 5 {
        baselineRTT := Median(rttSamples);
      }
      Evaluate();
    }

    method RecordThroughput(bytesPerSec: real)
      modifies this
      ensures View() == Step(config, old(View()), Throughput(bytesPerSec))
      ensures notified == old(notified) + if state != old(state) then [state] else []
    {
      tputSamples := tputSamples + [bytesPerSec];
      if |tputSamples| > config.windowSize {
        tputSamples := tputSamples[1..];
      }
      if |tputSamples| <= 5 {
        baselineTput := AvgThroughput();
      }
      Evaluate();
    }

    method Evaluate()
      modifies this`suspectedCount, this`state, this`notified
      ensures View() == Judged(config, old(View()), Suspicious(config, old(View())))
      ensures notified == old(notified) + if state != old(state) then [state] else []
    {
      var suspected := false;
      if baselineRTT > 0 && |rttSamples| >= 3 {
        var recent := rttSamples[|rttSamples| - 1];
        var threshold := config.rttSpikeMs * MS;
        if recent > threshold && recent > baselineRTT * 3 {
          suspected := true;
        }
      }
      if baselineTput > 0.0 && |tputSamples| >= 3 {
        var recent := tputSamples[|tputSamples| - 1];
        var dropPct := (1.0 - recent / baselineTput) * 100.0;
        if dropPct >= config.dropPct as real {
          suspected := true;
        }
      }
      var oldState := state;
      if suspected {
        suspectedCount := suspectedCount + 1;
        if suspectedCount >= config.confirmCount {
          state := Throttled;
        } else {
          state := Suspected;
        }
      } else {
        suspectedCount := 0;
        state := Normal;
      }
      if oldState != state {
        notified := notified + [state];
      }
    }
  }

  // ---- History ----

  function After(c: Config, samples: seq<Sample>): Memory {
    if samples == [] then BLANK else Step(c, After(c, samples[..|samples| - 1]), samples[|samples| - 1])
  }

  /** Which samples were judged suspicious, in order. */
  function Verdicts(c: Config, samples: seq<Sample>): (v: seq<bool>)
    ensures |v| == |samples|
  {
    if samples == [] then []
    else
      var n := |samples| - 1;
      Verdicts(c, samples[..n]) + [Suspicious(c, Stored(c, After(c, samples[..n]), samples[n]))]
  }

  /** n is the length of the run of suspicious verdicts at the end. */
  ghost predicate TrailingRun(verdicts: seq<bool>, n: nat) {
    && n <= |verdicts|
    && (forall k :: |verdicts| - n <= k < |verdicts| ==> verdicts[k])
    && (n < |verdicts| ==> !verdicts[|verdicts| - n - 1])
  }

  predicate ReadOff(c: Config, m: Memory) {
    && (m.state == Throttled <==> m.count >= c.confirmCount)
    && (m.state == Normal <==> m.count == 0)
  }

  lemma OneVerdict(c: Config, m: Memory, s: Sample)
    requires c.Set()
    ensures var verdict, m' := Suspicious(c, Stored(c, m, s)), Step(c, m, s);
            m'.count == (if verdict then m.count + 1 else 0) && ReadOff(c, m')
  {
  }

  lemma RunGrows(verdicts: seq<bool>, n: nat, verdict: bool)
    requires TrailingRun(verdicts, n)
    ensures TrailingRun(verdicts + [verdict], if verdict then n + 1 else 0)
  {
  }

  /** The counter is the trailing run, and the state is read off it. */
  lemma {:induction false} ThrottleHistory(c: Config, samples: seq<Sample>)
    requires c.Set()
    ensures TrailingRun(Verdicts(c, samples), After(c, samples).count)
    ensures ReadOff(c, After(c, samples))
  {
    if samples != [] {
      var n := |samples| - 1;
      ThrottleHistory(c, samples[..n]);
      var m := After(c, samples[..n]);
      OneVerdict(c, m, samples[n]);
      RunGrows(Verdicts(c, samples[..n]), m.count, Suspicious(c, Stored(c, m, samples[n])));
    }
  }

  /** All round trips ever recorded. */
  function Rtts(samples: seq<Sample>): seq<int> {
    if samples == [] then []
    else
      var n := |samples| - 1;
      Rtts(samples[..n]) + if samples[n].Rtt? then [samples[n].ns] else []
  }

  ghost predicate Windowed(c: Config, all: seq<int>, m: Memory) {
    && m.rtts == all[|all| - Min(|all|, c.windowSize)..]
    && (c.windowSize > BASELINE_SAMPLES && |all| in {3, 4} ==> m.baseRtt == all[|all| / 2])
    && (c.windowSize > BASELINE_SAMPLES && |all| >= BASELINE_SAMPLES ==> m.baseRtt == all[2])
  }

  lemma KeepsLatest(all: seq<int>, size: nat, ns: int)
    requires size > 0
    ensures Kept(all[|all| - Min(|all|, size)..] + [ns], size)
            == (all + [ns])[|all| + 1 - Min(|all| + 1, size)..]
  {
  }

  lemma WindowMoves(c: Config, all: seq<int>, m: Memory, s: Sample)
    requires c.Set() && Windowed(c, all, m)
    ensures Windowed(c, all + if s.Rtt? then [s.ns] else [], Stored(c, m, s))
  {
    if s.Throughput? {
      assert all + [] == all;
    } else {
      KeepsLatest(all, c.windowSize, s.ns);
      var now := all + [s.ns];
      if c.windowSize > BASELINE_SAMPLES && |now| <= BASELINE_SAMPLES {
        assert now[0..] == now;
      }
    }
  }

  lemma StepStores(c: Config, m: Memory, s: Sample)
    ensures Step(c, m, s).rtts == Stored(c, m, s).rtts && Step(c, m, s).baseRtt == Stored(c, m, s).baseRtt
  {
  }

  /** The window holds the latest windowSize of them, and a window of more than five freezes the baseline at the
      third round trip ever recorded. */
  lemma {:induction false} RttWindow(c: Config, samples: seq<Sample>)
    requires c.Set()
    ensures Windowed(c, Rtts(samples), After(c, samples))
  {
    if samples != [] {
      var n := |samples| - 1;
      RttWindow(c, samples[..n]);
      WindowMoves(c, Rtts(samples[..n]), After(c, samples[..n]), samples[n]);
      StepStores(c, After(c, samples[..n]), samples[n]);
    }
  }

  /** All throughputs ever recorded. */
  function Tputs(samples: seq<Sample>): seq<real> {
    if samples == [] then []
    else
      var n := |samples| - 1;
      Tputs(samples[..n]) + if samples[n].Throughput? then [samples[n].bps] else []
  }

  ghost predicate TputWindowed(c: Config, all: seq<real>, m: Memory) {
    && m.tputs == all[|all| - Min(|all|, c.windowSize)..]
    && (c.windowSize > BASELINE_SAMPLES && |all| < BASELINE_SAMPLES ==> m.baseTput == Average(all))
    && (c.windowSize > BASELINE_SAMPLES && |all| >= BASELINE_SAMPLES ==> m.baseTput == Average(all[..BASELINE_SAMPLES]))
  }

  lemma KeepsLatestTput(all: seq<real>, size: nat, bps: real)
    requires size > 0
    ensures Kept(all[|all| - Min(|all|, size)..] + [bps], size)
            == (all + [bps])[|all| + 1 - Min(|all| + 1, size)..]
  {
  }

  lemma TputWindowMoves(c: Config, all: seq<real>, m: Memory, s: Sample)
    requires c.Set() && TputWindowed(c, all, m)
    ensures TputWindowed(c, all + if s.Throughput? then [s.bps] else [], Stored(c, m, s))
  {
    if s.Rtt? {
      assert all + [] == all;
    } else {
      KeepsLatestTput(all, c.windowSize, s.bps);
      var now := all + [s.bps];
      if c.windowSize > BASELINE_SAMPLES && |now| <= BASELINE_SAMPLES {
        assert now[0..] == now;
        assert |now| == BASELINE_SAMPLES ==> now[..BASELINE_SAMPLES] == now;
      } else if |all| >= BASELINE_SAMPLES {
        assert now[..BASELINE_SAMPLES] == all[..BASELINE_SAMPLES];
      }
    }
  }

  lemma StepStoresTput(c: Config, m: Memory, s: Sample)
    ensures Step(c, m, s).tputs == Stored(c, m, s).tputs && Step(c, m, s).baseTput == Stored(c, m, s).baseTput
  {
  }

  /** The same for throughput: a window of more than five freezes the baseline at the average of the first five. */
  lemma {:induction false} TputWindow(c: Config, samples: seq<Sample>)
    requires c.Set()
    ensures TputWindowed(c, Tputs(samples), After(c, samples))
  {
    if samples != [] {
      var n := |samples| - 1;
      TputWindow(c, samples[..n]);
      TputWindowMoves(c, Tputs(samples[..n]), After(c, samples[..n]), samples[n]);
      StepStoresTput(c, After(c, samples[..n]), samples[n]);
    }
  }

  lemma {:induction false} SumSplits(a: seq<real>, b: seq<real>)
    ensures Sum(a + b) == Sum(a) + Sum(b) && forall x :: Sum([x]) == x
  {
    forall x: real ensures Sum([x]) == x {
      assert [x][..0] == [];
    }
    if b == [] {
      assert a + b == a;
    } else {
      assert (a + b)[..|a + b| - 1] == a + b[..|b| - 1];
      SumSplits(a, b[..|b| - 1]);
    }
  }

  /** A round trip is a spike by the numbers: the third or a later one, over the configured milliseconds and over three
      times a positive baseline. */
  lemma SpikeByNumbers(c: Config, m: Memory)
    ensures RttSpike(c, m) <==>
            |m.rtts| >= 3 && m.baseRtt > 0
            && m.rtts[|m.rtts| - 1] > 1_000_000 * c.rttSpikeMs && m.rtts[|m.rtts| - 1] > 3 * m.baseRtt
  {
  }

  /** A throughput is a drop by the numbers: the third or a later one, at least dropPct per cent of a positive baseline
      below it. */
  lemma DropByNumbers(c: Config, m: Memory)
    ensures ThroughputDrop(c, m) <==>
            |m.tputs| >= 3 && m.baseTput > 0.0
            && 100.0 * (m.baseTput - m.tputs[|m.tputs| - 1]) >= (c.dropPct as real) * m.baseTput
  {
    if |m.tputs| >= 3 && m.baseTput > 0.0 {
      BelowByNumbers(c, m.baseTput, m.tputs[|m.tputs| - 1]);
    }
  }

  lemma BelowByNumbers(c: Config, base: real, last: real)
    requires base > 0.0
    ensures DropsBelow(c, base, last) <==> 100.0 * (base - last) >= (c.dropPct as real) * base
  {
    var q := last / base;
    assert last == q * base;
    ScaleUp((1.0 - q) * 100.0, c.dropPct as real, base);
    assert (1.0 - q) * 100.0 * base == 100.0 * (base - last);
  }

  lemma ScaleUp(a: real, p: real, y: real)
    requires y > 0.0
    ensures a >= p <==> a * y >= p * y
  {
    if a >= p {
      assert (a - p) * y >= 0.0;
    } else {
      assert (p - a) * y > 0.0;
    }
  }

  lemma SpikeByHistory(c: Config, r: seq<int>, m: Memory)
    requires c.Set() && c.windowSize > BASELINE_SAMPLES && |r| >= BASELINE_SAMPLES && Windowed(c, r, m)
    ensures RttSpike(c, m) <==> r[2] > 0 && r[|r| - 1] > 1_000_000 * c.rttSpikeMs && r[|r| - 1] > 3 * r[2]
  {
    SpikeByNumbers(c, m);
  }

  lemma DropByHistory(c: Config, t: seq<real>, m: Memory)
    requires c.Set() && c.windowSize > BASELINE_SAMPLES && |t| >= BASELINE_SAMPLES && TputWindowed(c, t, m)
    ensures ThroughputDrop(c, m) <==> DropsBelow(c, Average(t[..5]), t[|t| - 1])
  {
  }

  /** What DropByNumbers says without the division. */
  predicate DropsBelow(c: Config, base: real, last: real) {
    base > 0.0 && (1.0 - last / base) * 100.0 >= c.dropPct as real
  }

  lemma StoredWindows(c: Config, samples: seq<Sample>)
    requires c.Set() && samples != []
    ensures var n := |samples| - 1;
            var m := Stored(c, After(c, samples[..n]), samples[n]);
            Windowed(c, Rtts(samples), m) && TputWindowed(c, Tputs(samples), m)
  {
    var n := |samples| - 1;
    RttWindow(c, samples[..n]);
    TputWindow(c, samples[..n]);
    WindowMoves(c, Rtts(samples[..n]), After(c, samples[..n]), samples[n]);
    TputWindowMoves(c, Tputs(samples[..n]), After(c, samples[..n]), samples[n]);
  }

  /** The latest round trip against the third ever, and the latest throughput against the average of the first five. */
  predicate SuspectBy(c: Config, r: seq<int>, t: seq<real>)
    requires |r| >= BASELINE_SAMPLES && |t| >= BASELINE_SAMPLES
  {
    || (r[2] > 0 && r[|r| - 1] > 1_000_000 * c.rttSpikeMs && r[|r| - 1] > 3 * r[2])
    || DropsBelow(c, Average(t[..5]), t[|t| - 1])
  }

  lemma SuspectByMemory(c: Config, r: seq<int>, t: seq<real>, m: Memory)
    requires c.Set() && c.windowSize > BASELINE_SAMPLES && |r| >= BASELINE_SAMPLES && |t| >= BASELINE_SAMPLES
    requires Windowed(c, r, m) && TputWindowed(c, t, m)
    ensures Suspicious(c, m) == SuspectBy(c, r, t)
  {
    SpikeByHistory(c, r, m);
    DropByHistory(c, t, m);
  }

  lemma LastVerdict(c: Config, samples: seq<Sample>)
    requires samples != []
    ensures var n := |samples| - 1;
            Verdicts(c, samples)[n] == Suspicious(c, Stored(c, After(c, samples[..n]), samples[n]))
  {
  }

  lemma LastMemory(c: Config, samples: seq<Sample>) returns (m: Memory)
    requires c.Set() && samples != []
    ensures Windowed(c, Rtts(samples), m) && TputWindowed(c, Tputs(samples), m)
    ensures Verdicts(c, samples)[|samples| - 1] == Suspicious(c, m)
  {
    var n := |samples| - 1;
    m := Stored(c, After(c, samples[..n]), samples[n]);
    StoredWindows(c, samples);
    LastVerdict(c, samples);
  }

  /** Over a whole history, with a window of more than five and five of each kind seen: the verdict on the last sample,
      from the samples as they were recorded. */
  lemma VerdictByHistory(c: Config, samples: seq<Sample>)
    requires c.Set() && c.windowSize > BASELINE_SAMPLES && samples != []
    requires |Rtts(samples)| >= BASELINE_SAMPLES && |Tputs(samples)| >= BASELINE_SAMPLES
    ensures Verdicts(c, samples)[|samples| - 1] == SuspectBy(c, Rtts(samples), Tputs(samples))
  {
    var m := LastMemory(c, samples);
    SuspectByMemory(c, Rtts(samples), Tputs(samples), m);
  }

  // ---- The answer ----

  datatype Bounds = Bounds(base: int, max: int) {
    predicate Set() {
      base > 0 && max > 0
    }

    function Top(): int {
      Max(base, max)
    }
  }

  /** What a callback that has loaded `current` stores, if anything. */
  function Answer(b: Bounds, state: State, current: int): int {
    match state
    case Throttled => if Min(current * 2, b.max) > current then Min(current * 2, b.max) else current
    case Normal => if current > b.base then Max(current / 2, b.base) else current
    case Suspected => current
  }

  class Adaptive {
    const bounds: Bounds
    const rotates: bool  // strategy "rotate" or "both"
    var parallelConns: int
    var rotateSignal: bool

    constructor (bounds: Bounds, rotates: bool)
      ensures this.bounds == bounds && this.rotates == rotates
      ensures parallelConns == bounds.base && !rotateSignal
    {
      this.bounds := bounds;
      this.rotates := rotates;
      parallelConns := bounds.base;
      rotateSignal := false;
    }

    method OnStateChange(state: State)
      modifies this
      ensures parallelConns == Answer(bounds, state, old(parallelConns))
      ensures state == Suspected ==> parallelConns == old(parallelConns)
      ensures state == Throttled && 2 * old(parallelConns) <= bounds.max && old(parallelConns) > 0 ==>
                parallelConns == 2 * old(parallelConns)
      ensures state == Normal && old(parallelConns) >= 2 * bounds.base && bounds.base > 0 ==>
                parallelConns == old(parallelConns) / 2
      ensures rotateSignal == (old(rotateSignal) || (state == Throttled && rotates))
    {
      match state {
        case Throttled =>
          var current := parallelConns;
          var newVal := Min(current * 2, bounds.max);
          if newVal > current {
            parallelConns := newVal;
          }
          if rotates {
            rotateSignal := true;
          }
        case Normal =>
          var current := parallelConns;
          if current > bounds.base {
            var newVal := Max(current / 2, bounds.base);
            parallelConns := newVal;
          }
        case Suspected =>
      }
    }
  }

  /** Callbacks run as goroutines: load and store are separate steps. */
  datatype Callback = Started(state: State) | Loaded(state: State, current: int) | Ended

  datatype Racing = Racing(conns: int, callbacks: seq<Callback>)

  datatype Move = Spawn(state: State) | Load(i: nat) | Store(i: nat)

  function Raced(b: Bounds, r: Racing, e: Move): Racing {
    match e
    case Spawn(state) => r.(callbacks := r.callbacks + [Started(state)])
    case Load(i) =>
      if i < |r.callbacks| && r.callbacks[i].Started? then
        r.(callbacks := r.callbacks[i := Loaded(r.callbacks[i].state, r.conns)])
      else r
    case Store(i) =>
      if i < |r.callbacks| && r.callbacks[i].Loaded? then
        var cb := r.callbacks[i];
        var v := Answer(b, cb.state, cb.current);
        Racing(if v != cb.current || (cb.state == Normal && cb.current > b.base) then v else r.conns,
               r.callbacks[i := Ended])
      else r
  }

  function Race(b: Bounds, moves: seq<Move>): Racing {
    if moves == [] then Racing(b.base, [])
    else Raced(b, Race(b, moves[..|moves| - 1]), moves[|moves| - 1])
  }

  /** A callback whose load and store nobody comes between answers what the recommendation was. */
  lemma RaceAlone(b: Bounds, r: Racing, i: nat)
    requires b.Set() && b.base <= r.conns <= b.Top() && i < |r.callbacks| && r.callbacks[i].Started?
    ensures var r' := Raced(b, Raced(b, r, Load(i)), Store(i));
            r'.conns == Answer(b, r.callbacks[i].state, r.conns) && r'.callbacks == r.callbacks[i := Ended]
  {
  }

  /** Whatever the interleaving, the recommendation stays between the base and the larger of base and maximum. */
  lemma {:induction false} RaceStaysInRange(b: Bounds, moves: seq<Move>)
    requires b.Set()
    ensures var r := Race(b, moves);
            && b.base <= r.conns <= b.Top()
            && forall i :: 0 <= i < |r.callbacks| && r.callbacks[i].Loaded? ==>
                 b.base <= r.callbacks[i].current <= b.Top()
  {
    if moves != [] {
      RaceStaysInRange(b, moves[..|moves| - 1]);
    }
  }

  /** base * 2^k. */
  function Doubled(base: int, k: nat): int {
    if k == 0 then base else 2 * Doubled(base, k - 1)
  }

  function Throttlings(b: Bounds, k: nat): int {
    if k == 0 then b.base else Answer(b, Throttled, Throttlings(b, k - 1))
  }

  lemma DoublesOnce(b: Bounds, x: int)
    requires b.Set() && x >= b.base
    ensures Answer(b, Throttled, Max(b.base, Min(x, b.max))) == Max(b.base, Min(2 * x, b.max))
  {
  }

  /** k Throttled callbacks with none other between double k times, up to the maximum. */
  lemma {:induction false} Doubling(b: Bounds, k: nat)
    requires b.Set()
    ensures Doubled(b.base, k) >= b.base
    ensures Throttlings(b, k) == Max(b.base, Min(Doubled(b.base, k), b.max))
  {
    if k > 0 {
      Doubling(b, k - 1);
      DoublesOnce(b, Doubled(b.base, k - 1));
    }
  }

  function Normals(b: Bounds, x: int, k: nat): int
    decreases k
  {
    if k == 0 then x else Normals(b, Answer(b, Normal, x), k - 1)
  }

  /** What k doublings have raised, k Normal callbacks bring back to the base. */
  lemma {:induction false} Settling(b: Bounds, x: int, k: nat)
    requires b.Set() && b.base <= x <= Doubled(b.base, k)
    ensures Normals(b, x, k) == b.base
    decreases k
  {
    if k > 0 {
      Doubling(b, k - 1);
      Settling(b, Answer(b, Normal, x), k - 1);
    }
  }

  /** Each Normal callback undoes one doubling, no more and no less. */
  lemma {:induction false} HalvesExactly(b: Bounds, m: nat, k: nat)
    requires b.Set() && k <= m
    ensures Normals(b, Doubled(b.base, m), k) == Doubled(b.base, m - k)
    decreases k
  {
    if k > 0 {
      Doubling(b, m - 1);
      HalvesExactly(b, m - 1, k - 1);
    }
  }

  lemma UpAndDown(b: Bounds, k: nat)
    requires b.Set()
    ensures Normals(b, Throttlings(b, k), k) == b.base
  {
    Doubling(b, k);
    Settling(b, Throttlings(b, k), k);
  }

  /** The recommendation after the samples, when each change of state is answered before the next sample. */
  function InOrder(c: Config, b: Bounds, samples: seq<Sample>): int {
    if samples == [] then b.base
    else
      var n := |samples| - 1;
      var was, now := After(c, samples[..n]).state, After(c, samples).state;
      var conns := InOrder(c, b, samples[..n]);
      if was != now then Answer(b, now, conns) else conns
  }

  /** The detector reports Throttled once and then not again before Normal. So, answered in order, the recommendation
      is the base, or one doubling of it while throttled; it never climbs further. */
  lemma {:induction false} InOrderDoublesOnce(c: Config, b: Bounds, samples: seq<Sample>)
    requires c.Set() && b.Set()
    ensures InOrder(c, b, samples)
            == if After(c, samples).state == Throttled then Max(b.base, Min(2 * b.base, b.max)) else b.base
  {
    if samples != [] {
      var n := |samples| - 1;
      InOrderDoublesOnce(c, b, samples[..n]);
      ThrottleHistory(c, samples[..n]);
      ThrottleHistory(c, samples);
    }
  }
}
