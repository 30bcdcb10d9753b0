/** clientConn.Write's concurrent half: one launcher, a semaphore of 8, one goroutine per chunk, one result channel. */
module Pipeline {
  import opened Common

  const IN_FLIGHT_LIMIT: nat := 8

  datatype PostError = PostError(code: int)
  datatype Result = Result(chunk: nat, err: Option<PostError>)

  /** `flying` have not reported; `reported` have sent their result but still hold the semaphore.
      `results` is everything ever sent on errCh, of which the collector has received the first `collected`. */
  datatype State = State(n: nat, launched: nat, flying: set<nat>, reported: set<nat>,
                         results: seq<Result>, collected: nat, firstErr: Option<PostError>,
                         brokenErr: Option<PostError>, finished: bool)

  datatype Step =
    | Launch
    | Report(i: nat, err: Option<PostError>)
    | Release(i: nat)
    | Collect
    | Finish

  function Start(n: nat): State {
    State(n, 0, {}, {}, [], 0, None, None, false)
  }

  predicate Enabled(s: State, e: Step) {
    match e
    case Launch => s.launched < s.n && |s.flying| + |s.reported| < IN_FLIGHT_LIMIT
    case Report(i, _) => i in s.flying
    case Release(i) => i in s.reported
    case Collect => s.launched == s.n && s.collected < |s.results|
    case Finish => s.launched == s.n && s.collected == s.n && !s.finished
  }

  function Apply(s: State, e: Step): State
    requires Enabled(s, e)
  {
    match e
    case Launch => s.(launched := s.launched + 1, flying := s.flying + {s.launched})
    case Report(i, err) =>
      s.(flying := s.flying - {i}, reported := s.reported + {i}, results := s.results + [Result(i, err)])
    case Release(i) => s.(reported := s.reported - {i})
    case Collect =>
      var err := s.results[s.collected].err;
      s.(collected := s.collected + 1, firstErr := if s.firstErr.None? then err else s.firstErr)
    case Finish => s.(finished := true, brokenErr := s.firstErr)
  }

  /** The first error among results, in the order they were received. */
  function FirstError(results: seq<Result>): Option<PostError> {
    if results == [] then None
    else if results[0].err.Some? then results[0].err
    else FirstError(results[1..])
  }

  lemma {:induction false} FirstErrorSnoc(results: seq<Result>, r: Result)
    ensures FirstError(results + [r]) == if FirstError(results).Some? then FirstError(results) else r.err
  {
    if results == [] {
      assert FirstError([r][1..]) == None;
    } else {
      assert (results + [r])[1..] == results[1..] + [r];
      FirstErrorSnoc(results[1..], r);
    }
  }

  lemma {:induction false} FirstErrorExists(results: seq<Result>)
    ensures FirstError(results).Some? <==> exists k :: 0 <= k < |results| && results[k].err.Some?
  {
    if results != [] {
      FirstErrorExists(results[1..]);
      if FirstError(results[1..]).Some? {
        var k :| 0 <= k < |results[1..]| && results[1..][k].err.Some?;
        assert results[k + 1].err.Some?;
      }
      if exists k :: 0 < k < |results| && results[k].err.Some? {
        var k :| 0 < k < |results| && results[k].err.Some?;
        assert results[1..][k - 1].err.Some?;
      }
    }
  }

  ghost predicate HasResult(results: seq<Result>, i: nat) {
    exists k :: 0 <= k < |results| && results[k].chunk == i
  }

  ghost predicate Inv(s: State) {
    Counts(s) && Covered(s) && Outcome(s)
  }

  ghost predicate Counts(s: State) {
    && s.launched <= s.n
    && s.flying !! s.reported
    && (forall i :: i in s.flying || i in s.reported ==> i < s.launched)
    && |s.flying| + |s.reported| <= IN_FLIGHT_LIMIT
    && |s.results| + |s.flying| == s.launched
    && (forall k :: 0 <= k < |s.results| ==> s.results[k].chunk < s.launched && s.results[k].chunk !in s.flying)
    && (forall j, k :: 0 <= j < k < |s.results| ==> s.results[j].chunk != s.results[k].chunk)
    && s.collected <= |s.results|
  }

  /** Steps left: three for each chunk not launched, two for each flying, one for each reported, and the collector's. */
  ghost function StepsLeft(s: State): int {
    3 * (s.n - s.launched) + 2 * |s.flying| + |s.reported| + (s.n - s.collected) + (if s.finished then 0 else 1)
  }

  lemma CountsStep(s: State, e: Step)
    requires Counts(s) && Enabled(s, e)
    ensures Counts(Apply(s, e))
    ensures StepsLeft(Apply(s, e)) == StepsLeft(s) - 1
  {
    match e
    case Launch =>
    case Report(i, _) => assert |s.flying - {i}| == |s.flying| - 1;
    case Release(i) => assert |s.reported - {i}| == |s.reported| - 1;
    case Collect =>
    case Finish =>
  }

  ghost predicate Covered(s: State) {
    forall i :: 0 <= i < s.launched ==> i in s.flying || HasResult(s.results, i)
  }

  ghost predicate Outcome(s: State) {
    && s.collected <= |s.results|
    && s.firstErr == FirstError(s.results[..s.collected])
    && (s.finished ==> s.launched == s.n && s.collected == s.n && s.brokenErr == s.firstErr)
    && (!s.finished ==> s.brokenErr.None?)
  }

  lemma CoveredStep(s: State, e: Step)
    requires Covered(s) && Enabled(s, e)
    ensures Covered(Apply(s, e))
  {
    var s' := Apply(s, e);
    forall i | 0 <= i < s'.launched && i !in s'.flying ensures HasResult(s'.results, i) {
      if i in s.flying {
        assert s'.results[|s.results|].chunk == i;
      } else {
        var k :| 0 <= k < |s.results| && s.results[k].chunk == i;
        assert s'.results[k].chunk == i;
      }
    }
  }

  lemma OutcomeStep(s: State, e: Step)
    requires Outcome(s) && Enabled(s, e) && |s.results| <= s.n
    ensures Outcome(Apply(s, e))
  {
    if e.Collect? {
      assert s.results[..s.collected + 1] == s.results[..s.collected] + [s.results[s.collected]];
      FirstErrorSnoc(s.results[..s.collected], s.results[s.collected]);
    } else if e.Report? {
      assert Apply(s, e).results[..s.collected] == s.results[..s.collected];
    }
  }

  lemma InvStep(s: State, e: Step)
    requires Inv(s) && Enabled(s, e)
    ensures Inv(Apply(s, e)) && Apply(s, e).n == s.n
    ensures StepsLeft(Apply(s, e)) == StepsLeft(s) - 1
  {
    CountsStep(s, e);
    CoveredStep(s, e);
    OutcomeStep(s, e);
  }

  /** No deadlock: unless everything is done, some step can be taken. */
  lemma SomeStepEnabled(s: State)
    requires Inv(s)
    ensures (exists e :: Enabled(s, e)) <==> StepsLeft(s) > 0
  {
    if s.launched < s.n && |s.flying| + |s.reported| < IN_FLIGHT_LIMIT {
      assert Enabled(s, Launch);
    } else if s.flying != {} {
      var i :| i in s.flying;
      assert Enabled(s, Report(i, None));
    } else if s.reported != {} {
      var i :| i in s.reported;
      assert Enabled(s, Release(i));
    } else if s.collected < s.n {
      assert Enabled(s, Collect);
    } else if !s.finished {
      assert Enabled(s, Finish);
    }
    forall e | Enabled(s, e) ensures StepsLeft(s) > 0 {
      if e.Report? {
        assert s.flying != {};
      } else if e.Release? {
        assert s.reported != {};
      }
    }
  }

  ghost predicate Runs(s: State, steps: seq<Step>, s': State)
    decreases |steps|
  {
    if steps == [] then s == s'
    else Enabled(s, steps[0]) && Runs(Apply(s, steps[0]), steps[1..], s')
  }

  lemma {:induction false} InvRun(s: State, steps: seq<Step>, s': State)
    requires Inv(s) && Runs(s, steps, s')
    ensures Inv(s') && s'.n == s.n && StepsLeft(s') == StepsLeft(s) - |steps|
    decreases |steps|
  {
    if steps != [] {
      InvStep(s, steps[0]);
      InvRun(Apply(s, steps[0]), steps[1..], s');
    }
  }

  /** Every schedule of n chunks stays within 8 in flight, may launch while fewer than 8 hold a slot, and stops, finished, after exactly 4n + 1 steps. */
  lemma PipelineSchedules(n: nat, steps: seq<Step>, s: State)
    requires Runs(Start(n), steps, s)
    ensures |s.flying| <= 8
    ensures s.launched < n && |s.flying| + |s.reported| < 8 ==> Enabled(s, Launch)
    ensures |steps| <= 4 * n + 1
    ensures (exists e :: Enabled(s, e)) <==> |steps| < 4 * n + 1
    ensures |steps| == 4 * n + 1 ==> s.finished
  {
    assert Inv(Start(n));
    InvRun(Start(n), steps, s);
    SomeStepEnabled(s);
    assert StepsLeft(s) >= 0;
  }

  /** When Write has finished, every chunk gave exactly one result, and the conn is broken by the first error
      received, exactly when some POST failed. */
  lemma PipelineOutcome(n: nat, steps: seq<Step>, s: State)
    requires Runs(Start(n), steps, s) && s.finished
    ensures forall i :: 0 <= i < n ==> HasResult(s.results, i)
    ensures forall j, k :: 0 <= j < k < |s.results| ==> s.results[j].chunk != s.results[k].chunk
    ensures s.brokenErr == FirstError(s.results)
    ensures s.brokenErr.Some? <==> exists k :: 0 <= k < |s.results| && s.results[k].err.Some?
  {
    assert Inv(Start(n));
    InvRun(Start(n), steps, s);
    assert s.results[..s.collected] == s.results;
    FirstErrorExists(s.results);
  }
}
