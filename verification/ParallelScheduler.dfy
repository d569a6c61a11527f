/**
 The mutex/condvar scheduler: one caller thread that dispatches ready nodes to a pool, pool jobs
 that publish results, and the lock and condition variable between them.

 A run is any interleaving of the steps below. The caller's code between two acquisitions of the
 lock is one step, because nothing else can touch the state in between; the lock is given up
 while a job is submitted, so jobs may finish between two turns of the dispatch loop.
 */
module ParallelScheduler {
  import opened Wrappers
  import opened DependencyGraph
  import opened PlanMeaning
  import opened NodeTracking

  datatype Config<!V> = Config(dag: Dag<V>, succ: seq<seq<nat>>, maxInflight: nat)

  /** Where the caller thread is: `Draining` is the wait of the error path, `Waiting` the bare wait. */
  datatype Pc = AtTop | Submitting | Waiting | Draining | Broke | Threw

  /** `jobs[i]` is `None` while job `i` computes and holds its outcome until it is published. */
  datatype State<V> = State(
    rem: seq<int>,
    results: seq<Option<V>>,
    ready: seq<nat>,
    jobs: map<nat, Option<Result<V>>>,
    inflight: int,
    firstError: Option<string>,
    pc: Pc,
    notifies: nat)

  datatype Step = MainLock | JobCompute(node: nat) | JobSection(node: nat) | DeliverNotify | SpuriousWake

  // ---------------------------------------------------------------------------------------
  // Steps

  ghost predicate IsInit<V>(c: Config<V>, s: State<V>) {
    && |s.rem| == |c.dag| && CountsDown(Deps(c.dag), s.rem, {})
    && s == State(s.rem, seq(|c.dag|, _ => None), ZeroNodes(s.rem, |c.dag|), map[], 0, None, AtTop, 0)
  }

  /** What a job computes from the result slots; the slots it needs are full in every reachable state. */
  ghost function Compute<V>(p: Dag<V>, results: seq<Option<V>>, i: nat): Result<V>
    requires i < |p|
  {
    if Present(results, p[i].inputs) && Present(results, p[i].refs)
    then p[i].run(Gather(results, p[i].inputs), Gather(results, p[i].refs))
    else Err(UPSTREAM)
  }

  ghost predicate Enabled<V>(c: Config<V>, s: State<V>, step: Step) {
    match step
    case MainLock => s.pc == AtTop || s.pc == Submitting
    case JobCompute(i) => i in s.jobs && s.jobs[i].None?
    case JobSection(i) => i in s.jobs && s.jobs[i].Some?
    case DeliverNotify => s.notifies > 0
    case SpuriousWake => s.pc == Waiting || s.pc == Draining
  }

  ghost predicate WellShaped<V>(c: Config<V>, s: State<V>) {
    && |c.succ| == |c.dag| == |s.rem| == |s.results|
    && (forall d :: 0 <= d < |c.succ| ==> Below(c.succ[d], |c.dag|))
    && Below(s.ready, |c.dag|)
    && forall i :: i in s.jobs ==> i < |c.dag|
  }

  /** From the inner loop test on: dispatch one node, or leave, or wait. */
  function DispatchOrLeave<V>(c: Config<V>, s: State<V>): State<V> {
    if s.ready != [] && s.inflight < c.maxInflight then
      s.(ready := s.ready[1..], inflight := s.inflight + 1, jobs := s.jobs[s.ready[0] := None], pc := Submitting)
    else if s.ready == [] && s.inflight == 0 then s.(pc := Broke)
    else s.(pc := Waiting)
  }

  function Main<V>(c: Config<V>, s: State<V>): State<V> {
    if s.pc == AtTop && s.firstError.Some? then s.(pc := if s.inflight == 0 then Threw else Draining)
    else DispatchOrLeave(c, s)
  }

  function Publish<V>(c: Config<V>, s: State<V>, i: nat): State<V>
    requires WellShaped(c, s) && i in s.jobs && s.jobs[i].Some?
  {
    var s' := s.(jobs := s.jobs - {i}, inflight := s.inflight - 1, notifies := s.notifies + 1);
    match s.jobs[i].value
    case Ok(v) =>
      var (rem, woken) := Wake(s.rem, c.succ[i]);
      s'.(rem := rem, results := s.results[i := Some(v)], ready := s.ready + woken)
    case Err(e) =>
      s'.(firstError := if s.firstError.None? then Some(e) else s.firstError)
  }

  function Notify<V>(s: State<V>): State<V>
    requires s.notifies > 0
  {
    WakeUp(s.(notifies := s.notifies - 1))
  }

  /** A waiting caller woken: the error path tests again whether anything is in flight. */
  function WakeUp<V>(s: State<V>): State<V> {
    match s.pc
    case Waiting => s.(pc := AtTop)
    case Draining => if s.inflight == 0 then s.(pc := Threw) else s
    case _ => s
  }

  ghost function DoStep<V>(c: Config<V>, s: State<V>, step: Step): State<V>
    requires WellShaped(c, s) && Enabled(c, s, step)
  {
    match step
    case MainLock => Main(c, s)
    case JobCompute(i) => s.(jobs := s.jobs[i := Some(Compute(c.dag, s.results, i))])
    case JobSection(i) => Publish(c, s, i)
    case DeliverNotify => Notify(s)
    case SpuriousWake => WakeUp(s)
  }

  // ---------------------------------------------------------------------------------------
  // The invariant

  ghost predicate GoodConfig<V>(c: Config<V>, m: seq<Result<V>>) {
    && Closed(Deps(c.dag)) && IsSuccessors(Deps(c.dag), c.succ)
    && IsMeaning(c.dag, m) && c.maxInflight >= 1
  }

  /** The caller waits only for something to come, and never beside a node it could dispatch. */
  ghost predicate CallerInv<V>(c: Config<V>, s: State<V>) {
    match s.pc
    case Waiting => s.notifies > 0 || (s.inflight > 0 && (s.ready == [] || s.inflight == c.maxInflight))
    case Draining => s.firstError.Some? && (s.inflight > 0 || s.notifies > 0)
    case Broke => s.ready == [] && s.inflight == 0
    case Threw => s.firstError.Some? && s.inflight == 0
    case _ => true
  }

  ghost predicate SlotsInv<V>(c: Config<V>, m: seq<Result<V>>, s: State<V>)
    requires WellShaped(c, s) && |m| == |c.dag|
  {
    && Tracks(Deps(c.dag), s.rem, s.results, s.ready, s.jobs.Keys)
    && Sound(m, s.results)
    && (forall i :: i in Failed(s.rem, s.results, s.ready, s.jobs.Keys) ==> m[i].Err? && s.firstError.Some?)
  }

  ghost predicate JobsInv<V>(c: Config<V>, m: seq<Result<V>>, s: State<V>)
    requires WellShaped(c, s) && |m| == |c.dag|
  {
    && (forall i :: i in s.jobs && s.jobs[i].Some? ==> s.jobs[i].value == m[i])
    && s.inflight == |s.jobs| <= c.maxInflight
  }

  ghost predicate Inv<V>(c: Config<V>, m: seq<Result<V>>, s: State<V>) {
    && WellShaped(c, s) && |m| == |c.dag|
    && SlotsInv(c, m, s) && JobsInv(c, m, s)
    && (s.firstError.Some? ==> exists i: nat :: FailsItself(c.dag, m, i, s.firstError.value))
    && CallerInv(c, s)
  }

  lemma InitInv<V>(c: Config<V>, m: seq<Result<V>>, s: State<V>)
    requires GoodConfig(c, m) && IsInit(c, s)
    ensures Inv(c, m, s)
  {
    TracksInit<V>(Deps(c.dag), s.rem);
  }

  lemma DispatchInv<V>(c: Config<V>, m: seq<Result<V>>, s: State<V>)
    requires GoodConfig(c, m) && Inv(c, m, s) && s.ready != [] && s.inflight < c.maxInflight
    ensures Inv(c, m, DispatchOrLeave(c, s))
  {
    hide Tracks, Failed, Sound, FailsItself, Unstarted, GoodConfig;
    var s' := DispatchOrLeave(c, s);
    TracksDispatch(Deps(c.dag), s.rem, s.results, s.ready, s.jobs.Keys);
    assert s'.jobs.Keys == s.jobs.Keys + {s.ready[0]};
    assert |s'.jobs| == |s'.jobs.Keys| == |s.jobs.Keys| + 1;
  }

  lemma MainInv<V>(c: Config<V>, m: seq<Result<V>>, s: State<V>)
    requires GoodConfig(c, m) && Inv(c, m, s) && Enabled(c, s, MainLock)
    ensures Inv(c, m, Main(c, s))
  {
    if s.pc == AtTop && s.firstError.Some? {
    } else if s.ready != [] && s.inflight < c.maxInflight {
      DispatchInv(c, m, s);
    } else {
      assert s.ready != [] ==> s.inflight > 0;
    }
  }

  lemma ComputeInv<V>(c: Config<V>, m: seq<Result<V>>, s: State<V>, i: nat)
    requires GoodConfig(c, m) && Inv(c, m, s) && Enabled(c, s, JobCompute(i))
    ensures Inv(c, m, DoStep(c, s, JobCompute(i)))
  {
    var s' := DoStep(c, s, JobCompute(i));
    RunIsMeaning(c.dag, m, s.results, i);
    assert s'.jobs.Keys == s.jobs.Keys;
    assert |s'.jobs| == |s'.jobs.Keys| == |s.jobs.Keys|;
  }

  lemma PublishInv<V>(c: Config<V>, m: seq<Result<V>>, s: State<V>, i: nat)
    requires GoodConfig(c, m) && Inv(c, m, s) && Enabled(c, s, JobSection(i))
    ensures Inv(c, m, Publish(c, s, i))
  {
    PublishShape(c, m, s, i);
    PublishSlots(c, m, s, i);
    JobGone(s.jobs, i);
    if s.jobs[i].value.Err? { RunIsMeaning(c.dag, m, s.results, i); }
    hide Tracks, Failed, FailsItself, SlotsInv, WellShaped, Wake;
  }

  lemma JobGone<V>(jobs: map<nat, Option<Result<V>>>, i: nat)
    requires i in jobs
    ensures (jobs - {i}).Keys == jobs.Keys - {i} && |jobs - {i}| == |jobs| - 1
  {
    assert (jobs - {i}).Keys == jobs.Keys - {i};
    assert |jobs - {i}| == |(jobs - {i}).Keys| && |jobs| == |jobs.Keys|;
  }

  lemma PublishShape<V>(c: Config<V>, m: seq<Result<V>>, s: State<V>, i: nat)
    requires GoodConfig(c, m) && Inv(c, m, s) && Enabled(c, s, JobSection(i))
    ensures WellShaped(c, Publish(c, s, i))
  {
    if s.jobs[i].value.Ok? {
      TracksSuccess(Deps(c.dag), c.succ, s.rem, s.results, s.ready, s.jobs.Keys, i, s.jobs[i].value.value);
    }
    hide Failed, FailsItself, GoodConfig, Wake, Sound, JobsInv;
  }

  lemma PublishSlots<V>(c: Config<V>, m: seq<Result<V>>, s: State<V>, i: nat)
    requires GoodConfig(c, m) && Inv(c, m, s) && Enabled(c, s, JobSection(i)) && WellShaped(c, Publish(c, s, i))
    ensures SlotsInv(c, m, Publish(c, s, i))
  {
    JobGone(s.jobs, i);
    match s.jobs[i].value
    case Ok(v) =>
      TracksSuccess(Deps(c.dag), c.succ, s.rem, s.results, s.ready, s.jobs.Keys, i, v);
      hide Tracks, Failed, FailsItself, GoodConfig, Wake;
    case Err(e) =>
      TracksFailure(Deps(c.dag), s.rem, s.results, s.ready, s.jobs.Keys, i);
      hide Tracks, Failed, FailsItself, GoodConfig, Wake, Sound;
  }

  lemma StepInv<V>(c: Config<V>, m: seq<Result<V>>, s: State<V>, step: Step)
    requires GoodConfig(c, m) && Inv(c, m, s) && Enabled(c, s, step)
    ensures Inv(c, m, DoStep(c, s, step))
  {
    hide Tracks, Failed, Sound, FailsItself, GoodConfig, Compute, Main, Publish;
    match step
    case MainLock => MainInv(c, m, s);
    case JobCompute(i) => ComputeInv(c, m, s, i);
    case JobSection(i) => PublishInv(c, m, s, i);
    case DeliverNotify =>
    case SpuriousWake =>
  }

  // ---------------------------------------------------------------------------------------
  // Runs

  /** Every step of the interleaving is possible when its turn comes. */
  ghost predicate IsRun<V>(c: Config<V>, s: State<V>, steps: seq<Step>)
    decreases |steps|
  {
    steps == [] || (WellShaped(c, s) && Enabled(c, s, steps[0]) && IsRun(c, DoStep(c, s, steps[0]), steps[1..]))
  }

  ghost function After<V>(c: Config<V>, s: State<V>, steps: seq<Step>): State<V>
    requires IsRun(c, s, steps)
    decreases |steps|
  {
    if steps == [] then s else After(c, DoStep(c, s, steps[0]), steps[1..])
  }

  lemma {:induction false} RunInv<V>(c: Config<V>, m: seq<Result<V>>, s: State<V>, steps: seq<Step>)
    requires GoodConfig(c, m) && Inv(c, m, s) && IsRun(c, s, steps)
    ensures Inv(c, m, After(c, s, steps))
    decreases |steps|
  {
    if steps != [] {
      StepInv(c, m, s, steps[0]);
      RunInv(c, m, DoStep(c, s, steps[0]), steps[1..]);
    }
  }

  lemma {:induction false} RunSnoc<V>(c: Config<V>, s: State<V>, steps: seq<Step>, step: Step)
    requires IsRun(c, s, steps) && WellShaped(c, After(c, s, steps)) && Enabled(c, After(c, s, steps), step)
    ensures IsRun(c, s, steps + [step]) && After(c, s, steps + [step]) == DoStep(c, After(c, s, steps), step)
    decreases |steps|
  {
    hide DoStep, Enabled;
    if steps != [] {
      RunSnoc(c, DoStep(c, s, steps[0]), steps[1..], step);
      assert (steps + [step])[1..] == steps[1..] + [step];
    } else {
      assert [step][1..] == [] && After(c, DoStep(c, s, step), []) == DoStep(c, s, step);
    }
  }

  lemma {:induction false} RunLast<V>(c: Config<V>, s: State<V>, steps: seq<Step>, step: Step)
    requires IsRun(c, s, steps) && IsRun(c, s, steps + [step])
    ensures WellShaped(c, After(c, s, steps)) && Enabled(c, After(c, s, steps), step)
    ensures After(c, s, steps + [step]) == DoStep(c, After(c, s, steps), step)
    decreases |steps|
  {
    hide DoStep, Enabled;
    if steps != [] {
      assert (steps + [step])[1..] == steps[1..] + [step];
      RunLast(c, DoStep(c, s, steps[0]), steps[1..], step);
    } else {
      assert [step][1..] == [] && After(c, DoStep(c, s, step), []) == DoStep(c, s, step);
    }
  }

  /** A run is the run of its beginning, continued. */
  lemma {:induction false} RunSplits<V>(c: Config<V>, s: State<V>, steps: seq<Step>, rest: seq<Step>)
    requires IsRun(c, s, steps) && IsRun(c, s, steps + rest)
    ensures IsRun(c, After(c, s, steps), rest) && After(c, s, steps + rest) == After(c, After(c, s, steps), rest)
    decreases |steps|
  {
    hide DoStep, Enabled;
    if steps == [] {
      assert steps + rest == rest;
    } else {
      assert (steps + rest)[1..] == steps[1..] + rest;
      RunSplits(c, DoStep(c, s, steps[0]), steps[1..], rest);
    }
  }

  /** What the call returns: the recorded error if it threw, else the output slots. */
  ghost function Returned<V>(s: State<V>, outputs: seq<nat>): Result<seq<V>>
    requires (s.pc == Threw && s.firstError.Some?) || (s.pc == Broke && Present(s.results, outputs))
  {
    if s.pc == Threw then Err(s.firstError.value) else Ok(Gather(s.results, outputs))
  }

  /** At a break with no error recorded, a node without a result has a dependency without one. */
  lemma EmptySlotIsBlocked<V>(c: Config<V>, m: seq<Result<V>>, s: State<V>, j: nat)
    requires GoodConfig(c, m) && Inv(c, m, s) && s.pc == Broke && s.firstError.None? && s.jobs == map[]
    requires j < |c.dag| && s.results[j].None?
    ensures Missing(Deps(c.dag)[j], Done(s.results)) > 0
  {
    assert s.jobs.Keys == {} && s.ready == [];
    BlockedOrFailed(s.rem, s.results, j);
  }

  /**
   Safety over all interleavings. A throw carries the error of a node that failed itself. When
   the loop breaks, every slot is full exactly if no error is recorded at that moment, and then
   the outputs are the plan's meaning. Nothing is in flight in either case.
   */
  lemma EveryRunIsSafe<V>(c: Config<V>, m: seq<Result<V>>, s0: State<V>, steps: seq<Step>, outputs: seq<nat>)
    requires GoodConfig(c, m) && Acyclic(Deps(c.dag)) && Below(outputs, |c.dag|)
    requires IsInit(c, s0) && IsRun(c, s0, steps)
    ensures var s := After(c, s0, steps);
      && (s.pc == Threw ==> s.jobs == map[] && s.firstError.Some? && Agrees(c.dag, m, outputs, Returned(s, outputs)))
      && (s.pc == Broke ==> s.jobs == map[] && (s.firstError.None? <==> forall i :: 0 <= i < |s.results| ==> s.results[i].Some?))
      && (s.pc == Broke && s.firstError.None? ==> Present(s.results, outputs) && Agrees(c.dag, m, outputs, Returned(s, outputs)))
  {
    InitInv(c, m, s0);
    RunInv(c, m, s0, steps);
    var s := After(c, s0, steps);
    if s.pc == Broke || s.pc == Threw {
      assert |s.jobs.Keys| == |s.jobs| == 0;
      assert s.jobs.Keys == {};
    }
    if s.pc == Broke && s.firstError.None? {
      CleanBreakIsSuccess(c, m, s);
      AllPresent(m, s.results, outputs);
    }
    if s.pc == Broke && s.firstError.Some? {
      var i: nat :| FailsItself(c.dag, m, i, s.firstError.value);
      FailureHasNoValue(c.dag, m, i, s.firstError.value);
      assert s.results[i].None?;
    }
  }

  /** If every node has a value, no run throws, and a break finds every slot full. */
  lemma NoFailureNoError<V>(c: Config<V>, m: seq<Result<V>>, s0: State<V>, steps: seq<Step>)
    requires GoodConfig(c, m) && AllNodesOk(m) && IsInit(c, s0) && IsRun(c, s0, steps)
    ensures After(c, s0, steps).firstError.None? && After(c, s0, steps).pc != Threw
  {
    InitInv(c, m, s0);
    RunInv(c, m, s0, steps);
    NoErrorRecorded(c, m, After(c, s0, steps));
  }

  lemma NoErrorRecorded<V>(c: Config<V>, m: seq<Result<V>>, s: State<V>)
    requires GoodConfig(c, m) && AllNodesOk(m) && Inv(c, m, s)
    ensures s.firstError.None?
  {
    if s.firstError.Some? {
      var i: nat :| FailsItself(c.dag, m, i, s.firstError.value);
      FailureHasNoValue(c.dag, m, i, s.firstError.value);
    }
  }

  /**
   In every reachable state: the bound holds, `inflight` counts the jobs, the countdowns are
   exact, a node that is queued or running finds the slot of every dependency full, and the caller
   does not wait beside a node it could dispatch.
   */
  lemma EveryReachableState<V>(c: Config<V>, m: seq<Result<V>>, s0: State<V>, steps: seq<Step>)
    requires GoodConfig(c, m) && IsInit(c, s0) && IsRun(c, s0, steps)
    ensures var s := After(c, s0, steps);
      && s.inflight == |s.jobs| <= c.maxInflight
      && CountsDown(Deps(c.dag), s.rem, Done(s.results))
      && NoDup(s.ready)
      && (s.pc == Waiting && s.notifies == 0 ==> s.inflight > 0 && (s.ready == [] || s.inflight == c.maxInflight))
      && (forall i :: i in s.ready || i in s.jobs ==> i < |c.dag| && Present(s.results, c.dag[i].inputs) && Present(s.results, c.dag[i].refs))
  {
    InitInv(c, m, s0);
    RunInv(c, m, s0, steps);
    var s := After(c, s0, steps);
    forall i | i in s.ready || i in s.jobs
      ensures i < |c.dag| && Present(s.results, c.dag[i].inputs) && Present(s.results, c.dag[i].refs)
    {
      StartedFindsInputs(c, m, s, i);
    }
  }

  lemma StartedFindsInputs<V>(c: Config<V>, m: seq<Result<V>>, s: State<V>, i: nat)
    requires GoodConfig(c, m) && Inv(c, m, s) && (i in s.ready || i in s.jobs)
    ensures i < |c.dag| && Present(s.results, c.dag[i].inputs) && Present(s.results, c.dag[i].refs)
  {
    if i in s.ready {
      var k :| 0 <= k < |s.ready| && s.ready[k] == i;
      assert s.rem[i] == 0;
    }
    RunIsMeaning(c.dag, m, s.results, i);
  }

  // ---------------------------------------------------------------------------------------
  // Each node is queued at most once

  /** How often node `i` enters the ready queue along a run. */
  ghost function Enqueued<V>(c: Config<V>, s: State<V>, steps: seq<Step>, i: nat): nat
    requires IsRun(c, s, steps)
    decreases |steps|
  {
    if steps == [] then 0
    else
      var s' := DoStep(c, s, steps[0]);
      (if i in s'.ready && i !in s.ready then 1 else 0) + Enqueued(c, s', steps[1..], i)
  }

  lemma PublishEntersZeroOnce<V>(c: Config<V>, m: seq<Result<V>>, s: State<V>, p: nat, i: nat)
    requires GoodConfig(c, m) && Inv(c, m, s) && Enabled(c, s, JobSection(p)) && i < |c.dag|
    ensures s.rem[i] == 0 ==> Publish(c, s, p).rem[i] == 0
    ensures i in Publish(c, s, p).ready && i !in s.ready ==> s.rem[i] > 0 && Publish(c, s, p).rem[i] == 0
  {
    if s.jobs[p].value.Ok? {
      WakeCountsDown(Deps(c.dag), c.succ, s.rem, Done(s.results), p);
      if s.rem[i] == 0 { StaysUnblocked(Deps(c.dag)[i], Done(s.results), p); }
    }
  }

  lemma CountdownEntersZeroOnce<V>(c: Config<V>, m: seq<Result<V>>, s: State<V>, step: Step, i: nat)
    requires GoodConfig(c, m) && Inv(c, m, s) && Enabled(c, s, step) && i < |c.dag|
    ensures s.rem[i] == 0 ==> DoStep(c, s, step).rem[i] == 0
    ensures i in DoStep(c, s, step).ready && i !in s.ready ==> s.rem[i] > 0 && DoStep(c, s, step).rem[i] == 0
  {
    if step.JobSection? {
      PublishEntersZeroOnce(c, m, s, step.node, i);
    } else {
      OthersOnlyDequeue(c, s, step);
    }
  }

  lemma OthersOnlyDequeue<V>(c: Config<V>, s: State<V>, step: Step)
    requires WellShaped(c, s) && Enabled(c, s, step) && !step.JobSection?
    ensures DoStep(c, s, step).rem == s.rem
    ensures DoStep(c, s, step).ready == s.ready || (s.ready != [] && DoStep(c, s, step).ready == s.ready[1..])
  {}

  lemma {:induction false} EnqueuedAtMostOnce<V>(c: Config<V>, m: seq<Result<V>>, s: State<V>, steps: seq<Step>, i: nat)
    requires GoodConfig(c, m) && Inv(c, m, s) && IsRun(c, s, steps) && i < |c.dag|
    ensures Enqueued(c, s, steps, i) <= if s.rem[i] == 0 then 0 else 1
    decreases |steps|
  {
    if steps != [] {
      CountdownEntersZeroOnce(c, m, s, steps[0], i);
      StepInv(c, m, s, steps[0]);
      EnqueuedAtMostOnce(c, m, DoStep(c, s, steps[0]), steps[1..], i);
    }
  }

  // ---------------------------------------------------------------------------------------
  // No run blocks forever

  /** Until the call returns, somebody can move: never is everyone asleep. */
  lemma NeverStuck<V>(c: Config<V>, m: seq<Result<V>>, s: State<V>) returns (step: Step)
    requires GoodConfig(c, m) && Inv(c, m, s) && s.pc != Broke && s.pc != Threw
    ensures Enabled(c, s, step) && step != SpuriousWake && (step.JobSection? ==> s.pc == Waiting || s.pc == Draining)
  {
    if s.pc == AtTop || s.pc == Submitting {
      step := MainLock;
    } else if s.notifies > 0 {
      step := DeliverNotify;
    } else {
      assert |s.jobs.Keys| > 0;
      var i :| i in s.jobs.Keys;
      step := if s.jobs[i].None? then JobCompute(i) else JobSection(i);
    }
  }

  ghost function Computing<V>(jobs: map<nat, Option<Result<V>>>): set<nat> { set i | i in jobs && jobs[i].None? }

  lemma DispatchedJob<V>(jobs: map<nat, Option<Result<V>>>, i: nat)
    requires i !in jobs
    ensures |jobs[i := None].Keys| == |jobs.Keys| + 1
    ensures |Computing(jobs[i := None])| == |Computing(jobs)| + 1
  {
    assert jobs[i := None].Keys == jobs.Keys + {i};
    assert Computing(jobs[i := None]) == Computing(jobs) + {i};
  }

  /** Work left, in steps: ten for a node not started, less and less as it moves on. */
  ghost function Work<V>(s: State<V>): nat {
    10 * |Unstarted(s.rem, s.ready)| + 4 * |s.jobs.Keys| + |Computing(s.jobs)| + 3 * s.notifies
      + (if s.pc == AtTop || s.pc == Submitting then 2 else 0)
  }

  lemma DispatchWorks<V>(c: Config<V>, s: State<V>)
    requires Tracks(Deps(c.dag), s.rem, s.results, s.ready, s.jobs.Keys)
    requires s.ready != [] && s.inflight < c.maxInflight
    ensures Work(DispatchOrLeave(c, s)) < Work(s)
  {
    var s', i := DispatchOrLeave(c, s), s.ready[0];
    assert i !in s.jobs && |Unstarted(s'.rem, s'.ready)| == |Unstarted(s.rem, s.ready)| - 1 by {
      TracksDispatch(Deps(c.dag), s.rem, s.results, s.ready, s.jobs.Keys);
    }
    DispatchedJob(s.jobs, i);
  }

  lemma PublishWorks<V>(c: Config<V>, s: State<V>, i: nat)
    requires Closed(Deps(c.dag)) && IsSuccessors(Deps(c.dag), c.succ)
    requires Tracks(Deps(c.dag), s.rem, s.results, s.ready, s.jobs.Keys)
    requires WellShaped(c, s) && Enabled(c, s, JobSection(i))
    ensures Work(Publish(c, s, i)) < Work(s)
  {
    var s' := Publish(c, s, i);
    assert s'.jobs.Keys == s.jobs.Keys - {i};
    assert Computing(s'.jobs) == Computing(s.jobs);
    if s.jobs[i].value.Ok? {
      TracksSuccess(Deps(c.dag), c.succ, s.rem, s.results, s.ready, s.jobs.Keys, i, s.jobs[i].value.value);
    }
  }

  lemma ComputeWorks<V>(c: Config<V>, s: State<V>, i: nat)
    requires WellShaped(c, s) && Enabled(c, s, JobCompute(i))
    ensures Work(DoStep(c, s, JobCompute(i))) < Work(s)
  {
    var s' := DoStep(c, s, JobCompute(i));
    assert s'.jobs.Keys == s.jobs.Keys;
    assert Computing(s'.jobs) == Computing(s.jobs) - {i};
  }

  lemma MainWorks<V>(c: Config<V>, s: State<V>)
    requires Tracks(Deps(c.dag), s.rem, s.results, s.ready, s.jobs.Keys) && (s.pc == AtTop || s.pc == Submitting)
    ensures Work(Main(c, s)) < Work(s)
  {
    hide Tracks;
    if (s.pc == AtTop ==> s.firstError.None?) && s.ready != [] && s.inflight < c.maxInflight {
      DispatchWorks(c, s);
    } else {
      assert Main(c, s).jobs == s.jobs;
    }
  }

  lemma StepWorks<V>(c: Config<V>, m: seq<Result<V>>, s: State<V>, step: Step)
    requires GoodConfig(c, m) && Inv(c, m, s) && Enabled(c, s, step) && step != SpuriousWake
    ensures Work(DoStep(c, s, step)) < Work(s)
  {
    hide Tracks, Sound, Main, Publish, Compute, CallerInv;
    match step
    case MainLock => MainWorks(c, s);
    case JobCompute(i) => ComputeWorks(c, s, i);
    case JobSection(i) => PublishWorks(c, s, i);
    case DeliverNotify => assert DoStep(c, s, step).jobs == s.jobs;
    case SpuriousWake =>
  }

  lemma {:induction false} RunBoundedByWork<V>(c: Config<V>, m: seq<Result<V>>, s: State<V>, steps: seq<Step>)
    requires GoodConfig(c, m) && Inv(c, m, s) && IsRun(c, s, steps) && SpuriousWake !in steps
    ensures |steps| <= Work(s)
    decreases |steps|
  {
    if steps != [] {
      StepInv(c, m, s, steps[0]);
      StepWorks(c, m, s, steps[0]);
      RunBoundedByWork(c, m, DoStep(c, s, steps[0]), steps[1..]);
    }
  }

  /**
   Without spurious wake-ups a run has at most `10 * n + 2` steps, and it can always be continued
   unless it has ended in a break or a throw: no run blocks forever.
   */
  lemma EveryRunEnds<V>(c: Config<V>, m: seq<Result<V>>, s0: State<V>, steps: seq<Step>)
    requires GoodConfig(c, m) && IsInit(c, s0) && IsRun(c, s0, steps) && SpuriousWake !in steps
    ensures |steps| <= 10 * |c.dag| + 2
    ensures var s := After(c, s0, steps);
      s.pc != Broke && s.pc != Threw ==> exists step :: Enabled(c, s, step) && step != SpuriousWake
  {
    InitInv(c, m, s0);
    RunInv(c, m, s0, steps);
    RunBoundedByWork(c, m, s0, steps);
    BelowCard(Unstarted(s0.rem, s0.ready), |c.dag|);
    assert Computing(s0.jobs) == {};
    var s := After(c, s0, steps);
    if s.pc != Broke && s.pc != Threw { var step := NeverStuck(c, m, s); }
  }

  // ---------------------------------------------------------------------------------------
  // When a recorded error is thrown

  /** An error is recorded and the caller is at the top of its loop, or in one of its waits, or has thrown. */
  ghost predicate Doomed<V>(s: State<V>) {
    s.firstError.Some? && (s.pc == AtTop || s.pc == Waiting || s.pc == Draining || s.pc == Threw)
  }

  lemma DoomedStays<V>(c: Config<V>, s: State<V>, step: Step)
    requires WellShaped(c, s) && Enabled(c, s, step) && Doomed(s)
    ensures var s' := DoStep(c, s, step);
      Doomed(s') && s'.firstError == s.firstError && s'.jobs.Keys <= s.jobs.Keys && (!step.JobSection? ==> s'.ready == s.ready)
  {
    hide Wake, Compute;
  }

  /** The error kept is the first one: whatever happens later does not replace it. */
  lemma {:induction false} FirstErrorStays<V>(c: Config<V>, s: State<V>, steps: seq<Step>)
    requires IsRun(c, s, steps) && s.firstError.Some?
    ensures After(c, s, steps).firstError == s.firstError
    decreases |steps|
  {
    hide Wake, Compute;
    if steps != [] { FirstErrorStays(c, DoStep(c, s, steps[0]), steps[1..]); }
  }

  /**
   Once the caller is at the top of its loop, or in a wait, with an error recorded, no continuation
   dispatches a node or breaks: when it has ended, it has thrown that error.
   */
  lemma {:induction false} RecordedErrorIsThrown<V>(c: Config<V>, s: State<V>, steps: seq<Step>)
    requires IsRun(c, s, steps) && Doomed(s)
    ensures var s' := After(c, s, steps);
      s'.pc != Broke && s'.pc != Submitting && s'.firstError == s.firstError && s'.jobs.Keys <= s.jobs.Keys
    ensures Doomed(After(c, s, steps))
    decreases |steps|
  {
    hide DoStep, Enabled;
    if steps != [] {
      DoomedStays(c, s, steps[0]);
      RecordedErrorIsThrown(c, DoStep(c, s, steps[0]), steps[1..]);
    }
  }

  /** A break with an error recorded: since the error was recorded the caller has not been back at the top of its loop, nor waited. */
  lemma BreakNeverCameBack<V>(c: Config<V>, s0: State<V>, steps: seq<Step>, rest: seq<Step>)
    requires IsRun(c, s0, steps) && IsRun(c, After(c, s0, steps), rest)
    requires After(c, After(c, s0, steps), rest).pc == Broke && After(c, s0, steps).firstError.Some?
    ensures After(c, s0, steps).pc == Submitting || After(c, s0, steps).pc == Broke
  {
    if Doomed(After(c, s0, steps)) { RecordedErrorIsThrown(c, After(c, s0, steps), rest); }
  }

  /** From a doomed state the call can be taken to its throw. */
  lemma {:induction false} DoomedCanThrow<V>(c: Config<V>, m: seq<Result<V>>, s: State<V>) returns (steps: seq<Step>)
    requires GoodConfig(c, m) && Inv(c, m, s) && Doomed(s)
    ensures IsRun(c, s, steps) && After(c, s, steps).pc == Threw && After(c, s, steps).firstError == s.firstError
    decreases Work(s)
  {
    hide DoStep, Enabled, Inv, GoodConfig, Work;
    if s.pc == Threw {
      steps := [];
    } else {
      var step := NeverStuck(c, m, s);
      StepKeeps(c, m, s, step);
      InvIsShaped(c, m, s);
      DoomedStays(c, s, step);
      var rest := DoomedCanThrow(c, m, DoStep(c, s, step));
      steps := [step] + rest;
      RunCons(c, s, step, rest);
    }
  }

  lemma InvIsShaped<V>(c: Config<V>, m: seq<Result<V>>, s: State<V>)
    requires Inv(c, m, s)
    ensures WellShaped(c, s)
  {
  }

  /** At a break with no error recorded every node has a value. */
  lemma CleanBreakIsSuccess<V>(c: Config<V>, m: seq<Result<V>>, s: State<V>)
    requires GoodConfig(c, m) && Acyclic(Deps(c.dag)) && Inv(c, m, s) && s.pc == Broke && s.firstError.None?
    ensures forall i :: 0 <= i < |c.dag| ==> s.results[i].Some?
    ensures AllNodesOk(m)
  {
    assert |s.jobs.Keys| == |s.jobs| == 0;
    assert s.jobs.Keys == {};
    forall j: nat | j < |c.dag| && s.results[j].None? ensures Missing(Deps(c.dag)[j], Done(s.results)) > 0 {
      EmptySlotIsBlocked(c, m, s, j);
    }
    var rank := AcyclicIsRanked(Deps(c.dag));
    forall i | 0 <= i < |c.dag| ensures s.results[i].Some? { NothingLeftToRun(c.dag, rank, s.results, i); }
  }

  /** A run in which jobs end only while the caller waits: it throws if any error is ever recorded. */
  lemma {:induction false} PatientRun<V>(c: Config<V>, m: seq<Result<V>>, s: State<V>) returns (steps: seq<Step>)
    requires GoodConfig(c, m) && Acyclic(Deps(c.dag)) && Inv(c, m, s) && (s.firstError.Some? ==> Doomed(s))
    ensures IsRun(c, s, steps)
    ensures var s' := After(c, s, steps);
      (s'.pc == Threw && s'.firstError.Some?) || (s'.pc == Broke && s'.firstError.None? && AllNodesOk(m))
    decreases Work(s)
  {
    hide DoStep, Enabled, Inv, GoodConfig, Work, Acyclic, AllNodesOk;
    if s.pc == Threw || s.firstError.Some? {
      if s.pc == Threw { ThrewHasError(c, m, s); }
      steps := DoomedCanThrow(c, m, s);
    } else if s.pc == Broke {
      CleanBreakIsSuccess(c, m, s);
      steps := [];
    } else {
      var step := NeverStuck(c, m, s);
      StepKeeps(c, m, s, step);
      InvIsShaped(c, m, s);
      PatientStep(c, s, step);
      var rest := PatientRun(c, m, DoStep(c, s, step));
      steps := [step] + rest;
      RunCons(c, s, step, rest);
    }
  }

  lemma ThrewHasError<V>(c: Config<V>, m: seq<Result<V>>, s: State<V>)
    requires Inv(c, m, s) && s.pc == Threw
    ensures Doomed(s)
  {
  }

  lemma PatientStep<V>(c: Config<V>, s: State<V>, step: Step)
    requires WellShaped(c, s) && Enabled(c, s, step) && s.firstError.None? && (step.JobSection? ==> s.pc == Waiting || s.pc == Draining)
    ensures DoStep(c, s, step).firstError.Some? ==> Doomed(DoStep(c, s, step))
  {
    hide Wake, Compute;
  }

  /** Every plan with a node that has no value has a run that throws, and no other plan has one. */
  lemma ThrowIff<V>(c: Config<V>, m: seq<Result<V>>, s0: State<V>)
    requires GoodConfig(c, m) && Acyclic(Deps(c.dag)) && IsInit(c, s0)
    ensures (exists steps :: IsRun(c, s0, steps) && After(c, s0, steps).pc == Threw) <==> !AllNodesOk(m)
  {
    InitInv(c, m, s0);
    if AllNodesOk(m) {
      forall steps ensures !(IsRun(c, s0, steps) && After(c, s0, steps).pc == Threw) {
        if IsRun(c, s0, steps) { NoFailureNoError(c, m, s0, steps); }
      }
    } else {
      var steps := PatientRun(c, m, s0);
      assert IsRun(c, s0, steps) && After(c, s0, steps).pc == Threw;
    }
  }

  // ---------------------------------------------------------------------------------------
  // The done test does not look at the recorded error

  /** The run ends in a break with a result slot empty. */
  ghost predicate BreaksWithGap<V>(c: Config<V>, s: State<V>, steps: seq<Step>) {
    IsRun(c, s, steps) && After(c, s, steps).pc == Broke && exists i :: 0 <= i < |After(c, s, steps).results| && After(c, s, steps).results[i].None?
  }

  lemma StepKeeps<V>(c: Config<V>, m: seq<Result<V>>, s: State<V>, step: Step)
    requires GoodConfig(c, m) && Inv(c, m, s) && Enabled(c, s, step) && step != SpuriousWake
    ensures Inv(c, m, DoStep(c, s, step)) && Work(DoStep(c, s, step)) < Work(s)
  {
    StepInv(c, m, s, step);
    StepWorks(c, m, s, step);
  }

  lemma DispatchAlone<V>(c: Config<V>, s: State<V>)
    requires WellShaped(c, s) && c.maxInflight >= 1 && s.inflight == 0 && s.jobs == map[] && s.ready != []
    requires s.pc == Submitting || (s.pc == AtTop && s.firstError.None?)
    ensures var s' := DoStep(c, s, MainLock); s'.jobs == map[s.ready[0] := None] && s'.pc == Submitting
  {
    assert s.jobs[s.ready[0] := None] == map[s.ready[0] := None];
  }

  lemma ComputeAlone<V>(c: Config<V>, s: State<V>, i: nat)
    requires WellShaped(c, s) && s.jobs == map[i := None]
    ensures var s' := DoStep(c, s, JobCompute(i)); s'.jobs.Keys == {i} && s'.jobs[i].Some? && s'.pc == s.pc
  {
  }

  lemma PublishAlone<V>(c: Config<V>, s: State<V>, i: nat)
    requires WellShaped(c, s) && s.jobs.Keys == {i} && s.jobs[i].Some?
    ensures var s' := DoStep(c, s, JobSection(i)); s'.jobs == map[] && s'.pc == s.pc
  {
    hide Wake;
    assert s.jobs - {i} == map[];
  }

  /** One node from the queue to its end while the lock is down: dispatched, computed and published. */
  lemma OneNodeThrough<V>(c: Config<V>, m: seq<Result<V>>, s: State<V>) returns (s': State<V>)
    requires GoodConfig(c, m) && Inv(c, m, s) && s.jobs == map[] && s.ready != []
    requires s.pc == Submitting || (s.pc == AtTop && s.firstError.None?)
    ensures Inv(c, m, s') && s'.jobs == map[] && s'.pc == Submitting && Work(s') < Work(s)
    ensures forall rest :: IsRun(c, s', rest) ==>
      var steps := [MainLock] + ([JobCompute(s.ready[0])] + ([JobSection(s.ready[0])] + rest));
      IsRun(c, s, steps) && After(c, s, steps) == After(c, s', rest)
  {
    var i := s.ready[0];
    DispatchAlone(c, s);
    hide DoStep, SlotsInv, CallerInv, GoodConfig, Work, JobsInv;
    StepKeeps(c, m, s, MainLock);
    var s1 := DoStep(c, s, MainLock);
    ComputeAlone(c, s1, i);
    StepKeeps(c, m, s1, JobCompute(i));
    var s2 := DoStep(c, s1, JobCompute(i));
    PublishAlone(c, s2, i);
    StepKeeps(c, m, s2, JobSection(i));
    s' := DoStep(c, s2, JobSection(i));
    hide Inv, WellShaped, IsRun, After;
    forall rest | IsRun(c, s', rest)
      ensures var steps := [MainLock] + ([JobCompute(i)] + ([JobSection(i)] + rest));
        IsRun(c, s, steps) && After(c, s, steps) == After(c, s', rest)
    {
      RunCons(c, s2, JobSection(i), rest);
      RunCons(c, s1, JobCompute(i), [JobSection(i)] + rest);
      RunCons(c, s, MainLock, [JobCompute(i)] + ([JobSection(i)] + rest));
    }
  }

  /** Whatever its tasks do, a plan has a run that breaks: every job ends before the lock is taken again. */
  lemma {:induction false} SomeRunBreaks<V>(c: Config<V>, m: seq<Result<V>>, s: State<V>) returns (steps: seq<Step>)
    requires GoodConfig(c, m) && Inv(c, m, s) && s.jobs == map[]
    requires s.pc == Submitting || (s.pc == AtTop && s.firstError.None?)
    ensures IsRun(c, s, steps) && After(c, s, steps).pc == Broke
    decreases Work(s)
  {
    if s.ready == [] {
      steps := [MainLock] + [];
      assert DoStep(c, s, MainLock).pc == Broke;
      RunCons(c, s, MainLock, []);
    } else {
      var s' := OneNodeThrough(c, m, s);
      var rest := SomeRunBreaks(c, m, s');
      steps := [MainLock] + ([JobCompute(s.ready[0])] + ([JobSection(s.ready[0])] + rest));
    }
  }

  /**
   The gap, as the plan decides it: some run breaks with a result missing if and only if some node
   of the plan has no value, for every plan and every bound of at least one.
   */
  lemma GapIff<V>(c: Config<V>, m: seq<Result<V>>, s0: State<V>)
    requires GoodConfig(c, m) && Acyclic(Deps(c.dag)) && IsInit(c, s0)
    ensures (exists steps :: BreaksWithGap(c, s0, steps)) <==> !AllNodesOk(m)
  {
    InitInv(c, m, s0);
    if AllNodesOk(m) {
      forall steps ensures !BreaksWithGap(c, s0, steps) {
        if IsRun(c, s0, steps) {
          NoFailureNoError(c, m, s0, steps);
          EveryRunIsSafe(c, m, s0, steps, []);
        }
      }
    } else {
      var steps := SomeRunBreaks(c, m, s0);
      RunInv(c, m, s0, steps);
      var i :| 0 <= i < |m| && m[i].Err?;
      assert After(c, s0, steps).results[i].None?;
      assert BreaksWithGap(c, s0, steps);
    }
  }

  function FailingNode(): DagNode<int> {
    DagNode([], [], (ins: seq<int>, refs: seq<int>) => Err("boom"))
  }

  /**
   One failing node, bound 1: the job is dispatched and fails while the lock is down, the done
   test sees an empty queue and nothing in flight, and the loop breaks with an error recorded
   and the node's slot empty.
   */
  lemma BreakCanMissAResult() returns (c: Config<int>, m: seq<Result<int>>, s0: State<int>, steps: seq<Step>)
    ensures GoodConfig(c, m) && IsInit(c, s0) && IsRun(c, s0, steps)
    ensures var s := After(c, s0, steps); s.pc == Broke && s.firstError == Some("boom") && s.results == [None]
  {
    c := Config([FailingNode()], [[]], 1);
    m := [Err("boom")];
    s0 := State([0], [None], [0], map[], 0, None, AtTop, 0);
    var s1 := State([0], [None], [], map[0 := None], 1, None, Submitting, 0);
    var s2 := s1.(jobs := map[0 := Some(Err("boom"))]);
    var s3 := State([0], [None], [], map[], 0, Some("boom"), Submitting, 1);
    var s4 := s3.(pc := Broke);
    FailingConfig(c, m, s0);
    FirstTwoSteps(c, s0, s1, s2);
    LastTwoSteps(c, s2, s3, s4);
    hide DoStep, Enabled, WellShaped, GoodConfig, IsInit;
    assert IsRun(c, s4, []) && After(c, s4, []) == s4;
    RunCons(c, s3, MainLock, []);
    RunCons(c, s2, JobSection(0), [MainLock] + []);
    RunCons(c, s1, JobCompute(0), [JobSection(0)] + ([MainLock] + []));
    steps := [MainLock] + ([JobCompute(0)] + ([JobSection(0)] + ([MainLock] + [])));
    RunCons(c, s0, MainLock, [JobCompute(0)] + ([JobSection(0)] + ([MainLock] + [])));
  }

  lemma FirstTwoSteps(c: Config<int>, s0: State<int>, s1: State<int>, s2: State<int>)
    requires c == Config([FailingNode()], [[]], 1) && s0 == State([0], [None], [0], map[], 0, None, AtTop, 0)
    requires s1 == State([0], [None], [], map[0 := None], 1, None, Submitting, 0)
    requires s2 == s1.(jobs := map[0 := Some(Err("boom"))])
    ensures WellShaped(c, s0) && Enabled(c, s0, MainLock) && DoStep(c, s0, MainLock) == s1
    ensures WellShaped(c, s1) && Enabled(c, s1, JobCompute(0)) && DoStep(c, s1, JobCompute(0)) == s2
  {
    assert s1.jobs == s0.jobs[0 := None] && s2.jobs == s1.jobs[0 := Some(Err("boom"))];
    assert Compute(c.dag, s1.results, 0) == Err("boom");
  }

  lemma LastTwoSteps(c: Config<int>, s2: State<int>, s3: State<int>, s4: State<int>)
    requires c == Config([FailingNode()], [[]], 1)
    requires s2 == State([0], [None], [], map[0 := Some(Err("boom"))], 1, None, Submitting, 0)
    requires s3 == State([0], [None], [], map[], 0, Some("boom"), Submitting, 1) && s4 == s3.(pc := Broke)
    ensures WellShaped(c, s2) && Enabled(c, s2, JobSection(0)) && DoStep(c, s2, JobSection(0)) == s3
    ensures WellShaped(c, s3) && Enabled(c, s3, MainLock) && DoStep(c, s3, MainLock) == s4
  {
    assert s3.jobs == s2.jobs - {0};
  }

  lemma RunCons<V>(c: Config<V>, s: State<V>, step: Step, rest: seq<Step>)
    requires WellShaped(c, s) && Enabled(c, s, step) && IsRun(c, DoStep(c, s, step), rest)
    ensures IsRun(c, s, [step] + rest) && After(c, s, [step] + rest) == After(c, DoStep(c, s, step), rest)
  {
    assert ([step] + rest)[1..] == rest;
  }

  lemma FailingConfig(c: Config<int>, m: seq<Result<int>>, s0: State<int>)
    requires c == Config([FailingNode()], [[]], 1) && m == [Err("boom")]
    requires s0 == State([0], [None], [0], map[], 0, None, AtTop, 0)
    ensures GoodConfig(c, m) && IsInit(c, s0)
  {
    assert Deps(c.dag) == [[]];
    assert AllOk(m, c.dag[0].inputs) && AllOk(m, c.dag[0].refs);
    assert ZeroNodes(s0.rem, 0) == [];
    assert s0.results == seq(|c.dag|, _ => None);
  }
}
