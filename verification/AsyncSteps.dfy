/**
 What each section of the async scheduler's code does to its state, and that it keeps the
 scheduler's invariant. `AsyncScheduler` runs these sections in the order the coroutines do.
 */
module AsyncSteps {
  import opened Wrappers
  import opened DependencyGraph
  import opened PlanMeaning
  import opened NodeTracking
  import opened Timeouts

  /** The plan, its successor lists, its deadlines, and when the run began. */
  datatype Setup<!V> = Setup(dag: Dag<V>, succ: seq<seq<nat>>, limits: Limits, begun: int)

  /** A suspended node coroutine: the outcome its task will deliver, and its deadline. */
  datatype Frame<V> = Frame(outcome: Result<V>, deadline: Option<int>)

  /** `frames` holds the suspended node coroutines, `now` is the clock when it was last read. */
  datatype State<V> = State(
    rem: seq<int>,
    results: seq<Option<V>>,
    ready: seq<nat>,
    inflight: int,
    firstError: Option<string>,
    frames: map<nat, Frame<V>>,
    now: int)

  ghost predicate GoodSetup<V>(c: Setup<V>, m: seq<Result<V>>) {
    Closed(Deps(c.dag)) && IsSuccessors(Deps(c.dag), c.succ) && IsMeaning(c.dag, m)
  }

  /** An error to report: a node's own, or that of a deadline which has passed. */
  ghost predicate Genuine<V>(c: Setup<V>, m: seq<Result<V>>, now: int, e: string) {
    Justified(c.limits, c.begun, now, e) || exists i: nat :: FailsItself(c.dag, m, i, e)
  }

  /** What a suspended coroutine holds: its node's outcome, and the deadline of a node started by now. */
  ghost predicate FrameOk<V>(c: Setup<V>, m: seq<Result<V>>, now: int, i: nat, frame: Frame<V>) {
    i < |m| && frame.outcome == m[i] && NodeDeadline(c.limits, c.begun, now, frame.deadline)
  }

  /**
   `starting` holds the node whose coroutine is on the stack with no outcome recorded yet;
   `unwinding` counts coroutines on the stack that have recorded theirs and have still to
   decrement the in-flight count.
   */
  ghost predicate Good<V>(c: Setup<V>, m: seq<Result<V>>, s: State<V>, starting: set<nat>, unwinding: nat) {
    && GoodSetup(c, m)
    && Tracks(Deps(c.dag), s.rem, s.results, s.ready, s.frames.Keys + starting)
    && Sound(m, s.results)
    && s.frames.Keys !! starting
    && c.begun <= s.now
    && (forall i :: i in s.frames ==> FrameOk(c, m, s.now, i, s.frames[i]))
    && s.inflight == |s.frames.Keys| + |starting| + unwinding
    && (Failed(s.rem, s.results, s.ready, s.frames.Keys + starting) != {} ==> s.firstError.Some?)
    && (s.firstError.Some? ==> Genuine(c, m, s.now, s.firstError.value))
  }

  ghost function Todo<V>(s: State<V>): set<nat> { Unstarted(s.rem, s.ready) }

  function Pop<V>(s: State<V>): State<V>
    requires s.ready != []
  {
    s.(ready := s.ready[1..], inflight := s.inflight + 1)
  }

  function Suspend<V>(s: State<V>, node: nat, frame: Frame<V>): State<V> {
    s.(frames := s.frames[node := frame])
  }

  function Unsuspend<V>(s: State<V>, node: nat): State<V> {
    s.(frames := s.frames - {node})
  }

  function Succeed<V>(c: Setup<V>, s: State<V>, node: nat, v: V): State<V>
    requires node < |c.succ| && node < |s.results| && Below(c.succ[node], |s.rem|)
  {
    var (rem, woken) := Wake(s.rem, c.succ[node]);
    s.(rem := rem, results := s.results[node := Some(v)], ready := s.ready + woken)
  }

  function Fail<V>(s: State<V>, e: string): State<V> {
    if s.firstError.None? then s.(firstError := Some(e)) else s
  }

  function ReadClock<V>(s: State<V>, now: int): State<V> { s.(now := now) }

  function Decrement<V>(s: State<V>): State<V> {
    s.(inflight := s.inflight - 1)
  }

  // ---------------------------------------------------------------------------------------

  /** Before anything has started, only the bookkeeping needs to be right. */
  lemma NothingStarted<V>(c: Setup<V>, m: seq<Result<V>>, s: State<V>)
    requires GoodSetup(c, m) && s.inflight == 0 && s.firstError.None? && s.frames == map[] && c.begun <= s.now
    requires Tracks(Deps(c.dag), s.rem, s.results, s.ready, {}) && Sound(m, s.results)
    requires Failed(s.rem, s.results, s.ready, {}) == {}
    ensures Good(c, m, s, {}, 0)
  {
    assert s.frames.Keys + {} == {};
    hide Tracks, Failed, Sound, Genuine, GoodSetup;
  }

  lemma InitGood<V>(c: Setup<V>, m: seq<Result<V>>, rem: seq<int>)
    requires GoodSetup(c, m) && CountsDown(Deps(c.dag), rem, {})
    ensures Good(c, m, State(rem, seq(|c.dag|, _ => None), ZeroNodes(rem, |rem|), 0, None, map[], c.begun), {}, 0)
  {
    var none: seq<Option<V>> := seq(|c.dag|, _ => None);
    InitTracks<V>(c, m, rem, none);
    hide Tracks, Failed, Sound, GoodSetup, Good, ZeroNodes, CountsDown;
    NothingStarted(c, m, State(rem, none, ZeroNodes(rem, |rem|), 0, None, map[], c.begun));
  }

  lemma InitTracks<V>(c: Setup<V>, m: seq<Result<V>>, rem: seq<int>, none: seq<Option<V>>)
    requires GoodSetup(c, m) && CountsDown(Deps(c.dag), rem, {}) && none == seq(|c.dag|, _ => None)
    ensures Tracks(Deps(c.dag), rem, none, ZeroNodes(rem, |rem|), {}) && Sound(m, none)
    ensures Failed(rem, none, ZeroNodes(rem, |rem|), {}) == {}
  {
    TracksInit<V>(Deps(c.dag), rem);
    assert none == seq(|Deps(c.dag)|, _ => None);
  }

  lemma PopGood<V>(c: Setup<V>, m: seq<Result<V>>, s: State<V>, unwinding: nat)
    requires Good(c, m, s, {}, unwinding) && s.ready != []
    ensures Good(c, m, Pop(s), {s.ready[0]}, unwinding)
    ensures |Todo(Pop(s))| < |Todo(s)| && Todo(Pop(s)) < Todo(s)
  {
    assert s.frames.Keys + {} == s.frames.Keys;
    TracksDispatch(Deps(c.dag), s.rem, s.results, s.ready, s.frames.Keys);
  }

  lemma SuspendGood<V>(c: Setup<V>, m: seq<Result<V>>, s: State<V>, node: nat, deadline: Option<int>, unwinding: nat)
    requires Good(c, m, s, {node}, unwinding) && node < |m| && NodeDeadline(c.limits, c.begun, s.now, deadline)
    ensures Good(c, m, Suspend(s, node, Frame(m[node], deadline)), {}, unwinding)
  {
    hide Tracks, Failed, Genuine, Sound, GoodSetup, NodeDeadline;
    var s' := Suspend(s, node, Frame(m[node], deadline));
    FrameAdded(s.frames, node, Frame(m[node], deadline));
    assert s'.frames.Keys + {} == s.frames.Keys + {node};
  }

  /** Time passes: what was late stays late. */
  lemma ReadClockGood<V>(c: Setup<V>, m: seq<Result<V>>, s: State<V>, now: int, starting: set<nat>, unwinding: nat)
    requires Good(c, m, s, starting, unwinding) && s.now <= now
    ensures Good(c, m, ReadClock(s, now), starting, unwinding) && Todo(ReadClock(s, now)) == Todo(s)
  {
    hide Tracks, Failed, Sound, GoodSetup, NodeDeadline, Justified;
    forall i | i in s.frames ensures FrameOk(c, m, now, i, s.frames[i]) {
      assert FrameOk(c, m, s.now, i, s.frames[i]);
      LaterDeadline(c.limits, c.begun, s.now, now, s.frames[i].deadline);
    }
    if s.firstError.Some? && Justified(c.limits, c.begun, s.now, s.firstError.value) {
      LaterJustified(c.limits, c.begun, s.now, now, s.firstError.value);
    }
  }

  lemma FrameAdded<V>(frames: map<nat, Frame<V>>, node: nat, frame: Frame<V>)
    requires node !in frames
    ensures frames[node := frame].Keys == frames.Keys + {node}
    ensures |frames[node := frame].Keys| == |frames.Keys| + 1
  {
    assert frames[node := frame].Keys == frames.Keys + {node};
  }

  lemma UnsuspendGood<V>(c: Setup<V>, m: seq<Result<V>>, s: State<V>, node: nat, unwinding: nat)
    requires Good(c, m, s, {}, unwinding) && node in s.frames
    ensures Good(c, m, Unsuspend(s, node), {node}, unwinding)
    ensures FrameOk(c, m, s.now, node, s.frames[node])
  {
    hide Tracks, Failed, Genuine, Sound, GoodSetup, FrameOk;
    var s' := Unsuspend(s, node);
    assert s'.frames.Keys == s.frames.Keys - {node};
    assert s'.frames.Keys + {node} == s.frames.Keys + {};
  }

  /** A node on the stack finds its inputs, and its task delivers what the plan means. */
  lemma StartedRuns<V>(c: Setup<V>, m: seq<Result<V>>, s: State<V>, node: nat, unwinding: nat)
    requires Good(c, m, s, {node}, unwinding)
    ensures node < |c.dag| == |m| && Present(s.results, c.dag[node].inputs) && Present(s.results, c.dag[node].refs)
    ensures c.dag[node].run(Gather(s.results, c.dag[node].inputs), Gather(s.results, c.dag[node].refs)) == m[node]
    ensures forall e :: m[node] == Err(e) ==> FailsItself(c.dag, m, node, e)
  {
    assert node in s.frames.Keys + {node};
    RunIsMeaning(c.dag, m, s.results, node);
  }

  lemma SucceedTracks<V>(c: Setup<V>, m: seq<Result<V>>, s: State<V>, node: nat, v: V, unwinding: nat)
    requires Good(c, m, s, {node}, unwinding) && node < |m|
    ensures node < |c.succ| && node < |s.results| && Below(c.succ[node], |s.rem|)
    ensures var s' := Succeed(c, s, node, v);
      && Tracks(Deps(c.dag), s'.rem, s'.results, s'.ready, s'.frames.Keys + {})
      && Failed(s'.rem, s'.results, s'.ready, s'.frames.Keys + {}) == Failed(s.rem, s.results, s.ready, s.frames.Keys + {node})
      && Todo(s') == Todo(s)
  {
    TracksSuccess(Deps(c.dag), c.succ, s.rem, s.results, s.ready, s.frames.Keys + {node}, node, v);
    assert s.frames.Keys + {node} - {node} == s.frames.Keys + {};
    hide Wake, Tracks, Failed, Unstarted, Sound, Genuine;
  }

  lemma SoundUpdate<V>(m: seq<Result<V>>, results: seq<Option<V>>, node: nat, v: V)
    requires Sound(m, results) && node < |results| && node < |m| && m[node] == Ok(v)
    ensures Sound(m, results[node := Some(v)])
  {
  }

  lemma SucceedGood<V>(c: Setup<V>, m: seq<Result<V>>, s: State<V>, node: nat, v: V, unwinding: nat)
    requires Good(c, m, s, {node}, unwinding) && node < |m| && m[node] == Ok(v)
    ensures node < |c.succ| && node < |s.results| && Below(c.succ[node], |s.rem|)
    ensures Good(c, m, Succeed(c, s, node, v), {}, unwinding + 1)
    ensures Todo(Succeed(c, s, node, v)) == Todo(s)
  {
    hide GoodSetup, Wake, Tracks, Failed, Unstarted, Sound, Genuine, Todo;
    SucceedTracks(c, m, s, node, v, unwinding);
    SoundUpdate(m, s.results, node, v);
  }

  lemma FailTracks<V>(c: Setup<V>, m: seq<Result<V>>, s: State<V>, node: nat, unwinding: nat)
    requires Good(c, m, s, {node}, unwinding) && node < |m|
    ensures Tracks(Deps(c.dag), s.rem, s.results, s.ready, s.frames.Keys + {})
  {
    TracksFailure(Deps(c.dag), s.rem, s.results, s.ready, s.frames.Keys + {node}, node);
    assert s.frames.Keys + {node} - {node} == s.frames.Keys + {};
    hide Tracks, Failed, Sound, Genuine;
  }

  lemma FailureIsGenuine<V>(c: Setup<V>, m: seq<Result<V>>, s: State<V>, node: nat, e: string, unwinding: nat)
    requires Good(c, m, s, {node}, unwinding) && node < |m| && (m[node] == Err(e) || Justified(c.limits, c.begun, s.now, e))
    ensures Genuine(c, m, s.now, e)
  {
    StartedRuns(c, m, s, node, unwinding);
    hide GoodSetup, Tracks, Failed, Sound;
  }

  lemma FailGood<V>(c: Setup<V>, m: seq<Result<V>>, s: State<V>, node: nat, e: string, unwinding: nat)
    requires Good(c, m, s, {node}, unwinding) && node < |m| && (m[node] == Err(e) || Justified(c.limits, c.begun, s.now, e))
    ensures Good(c, m, Fail(s, e), {}, unwinding + 1)
  {
    hide GoodSetup, Tracks, Failed, Sound, Genuine;
    FailTracks(c, m, s, node, unwinding);
    FailureIsGenuine(c, m, s, node, e, unwinding);
  }

  lemma DeadlineGood<V>(c: Setup<V>, m: seq<Result<V>>, s: State<V>, e: string, unwinding: nat)
    requires Good(c, m, s, {}, unwinding) && Justified(c.limits, c.begun, s.now, e)
    ensures Good(c, m, Fail(s, e), {}, unwinding) && Todo(Fail(s, e)) == Todo(s)
  {}

  lemma InFlightIsFrames<V>(c: Setup<V>, m: seq<Result<V>>, s: State<V>)
    requires Good(c, m, s, {}, 0)
    ensures s.inflight == |s.frames.Keys|
  {}

  lemma BegunBefore<V>(c: Setup<V>, m: seq<Result<V>>, s: State<V>, starting: set<nat>, unwinding: nat)
    requires Good(c, m, s, starting, unwinding)
    ensures c.begun <= s.now
  {}

  lemma UnwindingCounts<V>(c: Setup<V>, m: seq<Result<V>>, s: State<V>, unwinding: nat)
    requires Good(c, m, s, {}, unwinding)
    ensures s.inflight >= unwinding
  {}

  lemma DecrementGood<V>(c: Setup<V>, m: seq<Result<V>>, s: State<V>, unwinding: nat)
    requires Good(c, m, s, {}, unwinding + 1)
    ensures Good(c, m, Decrement(s), {}, unwinding)
  {}

  /**
   With nothing in flight and the queue drained, no recorded error means that every slot is
   full: unlike the parallel loop, this scheduler cannot leave with a result missing.
   */
  lemma QuietIsComplete<V>(c: Setup<V>, m: seq<Result<V>>, s: State<V>, outputs: seq<nat>)
    requires Good(c, m, s, {}, 0) && Acyclic(Deps(c.dag)) && Below(outputs, |c.dag|)
    requires s.inflight == 0 && (s.firstError.Some? || s.ready == [])
    ensures s.frames == map[]
    ensures s.firstError.None? ==> Present(s.results, outputs) && Agrees(c.dag, m, outputs, Ok(Gather(s.results, outputs)))
    ensures s.firstError.Some? ==> Genuine(c, m, s.now, s.firstError.value)
    ensures s.firstError.Some? && OnTime(c.limits, c.begun, s.now) ==> Agrees(c.dag, m, outputs, Err(s.firstError.value))
    ensures s.firstError.None? ==> forall i :: 0 <= i < |s.results| ==> s.results[i].Some?
  {
    assert s.frames.Keys == {};
    if s.firstError.Some? && OnTime(c.limits, c.begun, s.now) { OnTimeNeverLate(c.limits, c.begun, s.now, s.firstError.value); }
    if s.firstError.None? {
      assert s.frames.Keys + {} == {} && s.ready == [];
      forall j | 0 <= j < |c.dag| && s.results[j].None? ensures Missing(Deps(c.dag)[j], Done(s.results)) > 0 {
        BlockedOrFailed(s.rem, s.results, j);
      }
      var rank := AcyclicIsRanked(Deps(c.dag));
      forall i | 0 <= i < |c.dag| ensures s.results[i].Some? { NothingLeftToRun(c.dag, rank, s.results, i); }
      AllPresent(m, s.results, outputs);
    }
  }

  /**
   The sections of a plan of one node that suspends: one is in flight when main gets to its await,
   and none when the node has ended. If the loop stops in between, the post with which the node's end
   would resume main is refused, and no coroutine is left to try again.
   */
  lemma LastNodeEnds<V>(c: Setup<V>, m: seq<Result<V>>, v: V)
    requires |c.dag| == 1 && Deps(c.dag) == [[]] && c.succ == [[]] && IsMeaning(c.dag, m) && m[0] == Ok(v)
    ensures var s0 := State([0], [None], [0], 0, None, map[], c.begun);
      var s1 := Suspend(Pop(s0), 0, Frame(m[0], EffectiveDeadline(c.limits, c.begun)));
      var s2 := Decrement(Succeed(c, Unsuspend(s1, 0), 0, v));
      && Good(c, m, s0, {}, 0) && Good(c, m, s1, {}, 0) && Good(c, m, s2, {}, 0)
      && s1.inflight == 1 && s1.ready == [] && s2.inflight == 0 && s2.ready == [] && s2.frames == map[]
  {
    var s0: State<V> := State([0], [None], [0], 0, None, map[], c.begun);
    assert ZeroNodes([0], 0) == [] && ZeroNodes([0], 1) == [0];
    assert seq(|c.dag|, _ => None) == s0.results;
    assert Missing([], {}) == 0;
    InitGood(c, m, [0]);
    hide Good, GoodSetup, IsMeaning;
    PopGood(c, m, s0, 0);
    var deadline := EffectiveDeadline(c.limits, c.begun);
    assert StartedAt(c.limits, c.begun, c.begun, deadline, c.begun);
    SuspendGood(c, m, Pop(s0), 0, deadline, 0);
    var s1 := Suspend(Pop(s0), 0, Frame(m[0], deadline));
    UnsuspendGood(c, m, s1, 0, 0);
    SucceedGood(c, m, Unsuspend(s1, 0), 0, v, 0);
    DecrementGood(c, m, Succeed(c, Unsuspend(s1, 0), 0, v), 0);
  }
}
