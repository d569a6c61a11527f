/**
 The mutable state of the parallel scheduler, its critical sections, and the call that drives them.

 `trace` records the sections in the order in which the lock admitted them; `Valid` says that they
 are a run of `ParallelScheduler` from the initial state, so what is proved of every run holds of
 the object, and `Execute` returns what it says.
 */
module SchedulerState {
  import opened Wrappers
  import opened DependencyGraph
  import opened PlanMeaning
  import opened NodeTracking
  import opened ParallelScheduler

  class SchedulerState<V> {
    const config: Config<V>
    const depsRemaining: array<int>
    var results: seq<Option<V>>
    var readyQueue: seq<nat>
    var inflight: int
    var firstError: Option<string>
    // The pool's jobs, the caller thread's position, and notifications not yet delivered.
    var jobs: map<nat, Option<Result<V>>>
    var pc: Pc
    var notifies: nat
    ghost const start: State<V>
    ghost var trace: seq<Step>

    ghost function View(): State<V>
      reads this, depsRemaining
    {
      State(depsRemaining[..], results, readyQueue, jobs, inflight, firstError, pc, notifies)
    }

    /** The object got where it is by a run of the protocol. */
    ghost predicate Valid()
      reads this, depsRemaining
    {
      && WellShaped(config, View())
      && IsInit(config, start) && IsRun(config, start, trace) && After(config, start, trace) == View()
    }

    /** `init_scheduler_state`. */
    constructor (dag: Dag<V>, maxInflight: nat)
      requires Closed(Deps(dag))
      ensures fresh(depsRemaining) && config.dag == dag && config.maxInflight == maxInflight
      ensures IsSuccessors(Deps(dag), config.succ)
      ensures Valid() && trace == [] && pc == AtTop
      ensures forall i: nat :: i < |dag| ==> (i in readyQueue <==> Deps(dag)[i] == [])
    {
      var rem, succ := BuildSuccessors(Deps(dag));
      var queue: seq<nat> := [];
      var i := 0;
      while i < |rem|
        invariant 0 <= i <= |rem|
        invariant queue == ZeroNodes(rem, i)
      {
        if rem[i] == 0 { queue := queue + [i]; }
        i := i + 1;
      }
      config := Config(dag, succ, maxInflight);
      depsRemaining := new int[|rem|](k requires 0 <= k < |rem| => rem[k]);
      results := seq(|dag|, _ => None);
      readyQueue := queue;
      jobs, inflight, firstError, pc, notifies := map[], 0, None, AtTop, 0;
      start, trace := State(rem, seq(|dag|, _ => None), queue, map[], 0, None, AtTop, 0), [];
      new;
      assert depsRemaining[..] == rem;
      ZeroNodesAre(rem, |rem|);
      assert seq(|dag|, _ => None) == results;
      forall j: nat | j < |dag| ensures rem[j] == 0 <==> Deps(dag)[j] == [] { MissingNone(Deps(dag)[j]); }
    }

    /** The facts of every reachable state, in the object's own terms. */
    lemma Reachable(m: seq<Result<V>>)
      requires Valid() && GoodConfig(config, m)
      ensures Inv(config, m, View())
      ensures inflight == |jobs| <= config.maxInflight && NoDup(readyQueue)
      ensures forall i :: i in readyQueue || i in jobs ==>
        i < |config.dag| && Present(results, config.dag[i].inputs) && Present(results, config.dag[i].refs)
    {
      EveryReachableState(config, m, start, trace);
      InitInv(config, m, start);
      RunInv(config, m, start, trace);
    }

    /** One section carried out: it goes on the trace. */
    ghost method Record(before: State<V>, step: Step)
      requires IsInit(config, start) && IsRun(config, start, trace) && After(config, start, trace) == before
      requires WellShaped(config, before) && Enabled(config, before, step)
      requires WellShaped(config, View()) && View() == DoStep(config, before, step)
      modifies this`trace
      ensures Valid() && trace == old(trace) + [step]
    {
      RunSnoc(config, start, trace, step);
      trace := trace + [step];
    }

    /** The caller thread from one acquisition of the lock to the next release. */
    method MainTurn()
      requires Valid() && Enabled(config, View(), MainLock)
      modifies this
      ensures Valid() && trace == old(trace) + [MainLock] && unchanged(this`results, this`firstError, this`notifies)
      ensures if old(pc) == AtTop && firstError.Some? then
          unchanged(this`readyQueue, this`inflight, this`jobs) && pc == if inflight == 0 then Threw else Draining
        else if old(readyQueue) != [] && old(inflight) < config.maxInflight then
          && readyQueue == old(readyQueue)[1..] && inflight == old(inflight) + 1
          && jobs == old(jobs)[old(readyQueue)[0] := None] && pc == Submitting
        else
          unchanged(this`readyQueue, this`inflight, this`jobs) && pc == if readyQueue == [] && inflight == 0 then Broke else Waiting
    {
      ghost var before := View();
      if pc == AtTop && firstError.Some? {
        pc := if inflight == 0 then Threw else Draining;
      } else if readyQueue != [] && inflight < config.maxInflight {
        var node := readyQueue[0];
        readyQueue := readyQueue[1..];
        inflight := inflight + 1;
        jobs := jobs[node := None];
        pc := Submitting;
      } else if readyQueue == [] && inflight == 0 {
        pc := Broke;
      } else {
        pc := Waiting;
      }
      Record(before, MainLock);
    }

    /** A pool thread outside the lock: gather the inputs and run the task. */
    method RunTask(node: nat)
      requires Valid() && Enabled(config, View(), JobCompute(node))
      requires Present(results, config.dag[node].inputs) && Present(results, config.dag[node].refs)
      modifies this
      ensures Valid() && trace == old(trace) + [JobCompute(node)]
      ensures unchanged(this`results, this`readyQueue, this`inflight, this`firstError, this`pc, this`notifies)
      ensures var task := config.dag[node];
        jobs == old(jobs)[node := Some(task.run(Gather(results, task.inputs), Gather(results, task.refs)))]
    {
      ghost var before := View();
      var inputs := Gather(results, config.dag[node].inputs);
      var refs := Gather(results, config.dag[node].refs);
      jobs := jobs[node := Some(config.dag[node].run(inputs, refs))];
      Record(before, JobCompute(node));
    }

    /** Waking the successors: the countdowns fall, and the nodes that reach zero are queued. */
    method WakeSuccessors(node: nat)
      requires node < |config.succ| && Below(config.succ[node], depsRemaining.Length)
      modifies this`readyQueue, depsRemaining
      ensures depsRemaining[..] == Wake(old(depsRemaining[..]), config.succ[node]).0
      ensures readyQueue == old(readyQueue) + Wake(old(depsRemaining[..]), config.succ[node]).1
    {
      ghost var rem0 := depsRemaining[..];
      var succ := config.succ[node];
      var k := 0;
      while k < |succ|
        invariant 0 <= k <= |succ|
        invariant Below(succ[..k], |rem0|)
        invariant depsRemaining[..] == Wake(rem0, succ[..k]).0
        invariant readyQueue == old(readyQueue) + Wake(rem0, succ[..k]).1
      {
        assert succ[..k+1][..k] == succ[..k];
        var s := succ[k];
        var prev := depsRemaining[s];
        depsRemaining[s] := prev - 1;
        if prev == 1 { readyQueue := readyQueue + [s]; }
        k := k + 1;
      }
      assert succ[..k] == succ;
    }

    /** The locked section of a job that succeeded: store the result and wake successors. */
    method StoreResult(node: nat)
      requires Valid() && Enabled(config, View(), JobSection(node)) && jobs[node].value.Ok?
      modifies this, depsRemaining
      ensures Valid() && trace == old(trace) + [JobSection(node)]
      ensures results == old(results)[node := Some(old(jobs)[node].value.value)] && unchanged(this`firstError, this`pc)
      ensures jobs == old(jobs) - {node} && inflight == old(inflight) - 1 && notifies == old(notifies) + 1
    {
      ghost var before := View();
      results := results[node := Some(jobs[node].value.value)];
      WakeSuccessors(node);
      inflight := inflight - 1;
      jobs := jobs - {node};
      notifies := notifies + 1;
      WakeEffect(before.rem, config.succ[node]);
      hide Wake;
      Record(before, JobSection(node));
    }

    /** The locked section of a job that threw: the first error is kept. */
    method RecordFailure(node: nat)
      requires Valid() && Enabled(config, View(), JobSection(node)) && jobs[node].value.Err?
      modifies this
      ensures Valid() && trace == old(trace) + [JobSection(node)] && unchanged(this`results, this`readyQueue, this`pc)
      ensures firstError == if old(firstError).Some? then old(firstError) else Some(old(jobs)[node].value.error)
      ensures jobs == old(jobs) - {node} && inflight == old(inflight) - 1 && notifies == old(notifies) + 1
    {
      ghost var before := View();
      if firstError.None? { firstError := Some(jobs[node].value.error); }
      inflight := inflight - 1;
      jobs := jobs - {node};
      notifies := notifies + 1;
      Record(before, JobSection(node));
    }

    /** `cv.notify_one` reaching the caller thread, with the predicate of the error path re-tested. */
    method NotifyOne()
      requires Valid() && notifies > 0
      modifies this
      ensures Valid() && trace == old(trace) + [DeliverNotify] && notifies == old(notifies) - 1
      ensures unchanged(this`results, this`readyQueue, this`inflight, this`firstError, this`jobs)
      ensures pc == if old(pc) == Waiting then AtTop else if old(pc) == Draining && inflight == 0 then Threw else old(pc)
    {
      ghost var before := View();
      notifies := notifies - 1;
      WakeCaller();
      Record(before, DeliverNotify);
    }

    /** The caller thread back from its wait: the bare one goes on, the error path's tests its predicate. */
    method WakeCaller()
      modifies this`pc
      ensures View() == WakeUp(old(View()))
    {
      if pc == Waiting {
        pc := AtTop;
      } else if pc == Draining && inflight == 0 {
        pc := Threw;
      }
    }

    /** A wait returning for no reason. */
    method WakeSpuriously()
      requires Valid() && (pc == Waiting || pc == Draining)
      modifies this
      ensures Valid() && trace == old(trace) + [SpuriousWake]
      ensures unchanged(this`results, this`readyQueue, this`inflight, this`firstError, this`jobs, this`notifies)
      ensures pc == if old(pc) == Waiting then AtTop else if inflight == 0 then Threw else Draining
    {
      ghost var before := View();
      WakeCaller();
      Record(before, SpuriousWake);
    }

    /** A job moves on: it computes, or its outcome is published. */
    method JobTurn(node: nat, ghost m: seq<Result<V>>)
      requires Valid() && GoodConfig(config, m) && node in jobs
      modifies this, depsRemaining
      ensures Valid() && trace == old(trace) + [if old(jobs)[node].None? then JobCompute(node) else JobSection(node)]
    {
      Reachable(m);
      hide GoodConfig, Inv, IsRun, After, IsInit, DoStep;
      if jobs[node].None? {
        RunTask(node);
      } else {
        match jobs[node].value {
          case Ok(_) => StoreResult(node);
          case Err(_) => RecordFailure(node);
        }
      }
    }

    /** While the call has not returned, the caller or a job can move, or a notification is coming. */
    lemma SomeoneCanMove(m: seq<Result<V>>)
      requires Valid() && GoodConfig(config, m) && pc != Broke && pc != Threw
      ensures pc == AtTop || pc == Submitting || notifies > 0 || jobs != map[]
    {
      Reachable(m);
      hide Valid, GoodConfig;
      var step := NeverStuck(config, m, View());
    }

    /** Some thread takes a turn: the one named by `wish` if it can, else any that can. */
    method Turn(wish: Step, ghost m: seq<Result<V>>)
      requires Valid() && GoodConfig(config, m) && pc != Broke && pc != Threw && wish != SpuriousWake
      modifies this, depsRemaining
      ensures Valid() && exists step :: step != SpuriousWake && Enabled(config, old(View()), step) && trace == old(trace) + [step]
      ensures Enabled(config, old(View()), wish) ==> trace == old(trace) + [wish]
    {
      hide Valid, GoodConfig, DoStep, Inv;
      SomeoneCanMove(m);
      var dispatching := pc == AtTop || pc == Submitting;
      if (wish.JobCompute? || wish.JobSection?) && wish.node in jobs && wish.JobCompute? == jobs[wish.node].None? {
        JobTurn(wish.node, m);
      } else if notifies > 0 && (wish == DeliverNotify || !dispatching) {
        assert Enabled(config, View(), DeliverNotify);
        NotifyOne();
      } else if dispatching {
        assert Enabled(config, View(), MainLock);
        MainTurn();
      } else {
        var node :| node in jobs;
        JobTurn(node, m);
      }
    }

    /**
     `execute_plan_parallel`, for every interleaving and any number of spurious wake-ups. The call
     throws the error of a node that failed itself; or it breaks, and then it returns the plan's
     meaning if no error is recorded. Breaking with an error recorded, it finds a slot empty, and
     that happens only if it was never at the top of its loop, nor waiting, with an error recorded.
     `None` stands for reading an empty slot.
     */
    method Execute(outputs: seq<nat>, spurious: nat, ghost m: seq<Result<V>>) returns (r: Option<Result<seq<V>>>)
      requires Valid() && GoodConfig(config, m) && Acyclic(Deps(config.dag)) && Below(outputs, |config.dag|)
      modifies this, depsRemaining
      ensures Valid() && old(trace) <= trace && jobs == map[] && (pc == Threw || pc == Broke)
      ensures pc == Threw ==> firstError.Some? && r == Some(Err(firstError.value)) && Agrees(config.dag, m, outputs, r.value)
      ensures pc == Broke && firstError.None? ==> r.Some? && r.value.Ok? && Agrees(config.dag, m, outputs, r.value)
      ensures pc == Broke && firstError.Some? ==> exists i :: 0 <= i < |results| && results[i].None?
      ensures forall steps, rest :: trace == steps + rest && IsRun(config, start, steps) && Doomed(After(config, start, steps)) ==> pc == Threw
    {
      hide Valid, GoodConfig, DoStep, Agrees, Acyclic, Inv;
      var left := spurious;
      while pc != Broke && pc != Threw
        invariant Valid() && old(trace) <= trace
        decreases left, Work(View())
      {
        var wakes: bool := *;
        if left > 0 && (pc == Waiting || pc == Draining) && wakes {
          WakeSpuriously();
          left := left - 1;
        } else {
          var wish: Step := *;
          ghost var before, steps := View(), trace;
          TraceLeadsHere();
          Turn(if wish == SpuriousWake then MainLock else wish, m);
          TraceWorks(before, steps, m);
        }
      }
      Ended(outputs, m);
      SeenIsThrown();
      if pc == Threw { return Some(Err(firstError.value)); }
      var k := 0;
      while k < |outputs|
        invariant 0 <= k <= |outputs| && Present(results, outputs[..k])
      {
        if results[outputs[k]].None? { return None; }
        k := k + 1;
      }
      assert outputs[..k] == outputs;
      return Some(Ok(Gather(results, outputs)));
    }

    lemma TraceLeadsHere()
      requires Valid()
      ensures IsRun(config, start, trace) && After(config, start, trace) == View()
    {
    }

    /** One more turn on the trace is less work left. */
    lemma TraceWorks(before: State<V>, steps: seq<Step>, m: seq<Result<V>>)
      requires Valid() && GoodConfig(config, m) && IsRun(config, start, steps) && After(config, start, steps) == before
      requires exists step :: step != SpuriousWake && Enabled(config, before, step) && trace == steps + [step]
      ensures Work(View()) < Work(before)
    {
      hide GoodConfig, Inv, DoStep, Enabled;
      var step :| step != SpuriousWake && Enabled(config, before, step) && trace == steps + [step];
      InitInv(config, m, start);
      RunInv(config, m, start, steps);
      RunLast(config, start, steps, step);
      StepWorks(config, m, before, step);
    }

    /** If at any time the caller was at the top of its loop, or waited, with an error recorded, it does not break. */
    lemma SeenIsThrown()
      requires Valid()
      ensures forall steps, rest :: trace == steps + rest && IsRun(config, start, steps) && Doomed(After(config, start, steps)) ==> pc != Broke
    {
      forall steps, rest | trace == steps + rest && IsRun(config, start, steps) && Doomed(After(config, start, steps)) ensures pc != Broke {
        RunSplits(config, start, steps, rest);
        RecordedErrorIsThrown(config, After(config, start, steps), rest);
      }
    }

    lemma Ended(outputs: seq<nat>, m: seq<Result<V>>)
      requires Valid() && GoodConfig(config, m) && Acyclic(Deps(config.dag)) && Below(outputs, |config.dag|)
      requires pc == Threw || pc == Broke
      ensures jobs == map[] && Below(outputs, |results|)
      ensures pc == Threw ==> firstError.Some? && Agrees(config.dag, m, outputs, Err(firstError.value))
      ensures pc == Broke ==> (firstError.None? <==> forall i :: 0 <= i < |results| ==> results[i].Some?)
      ensures pc == Broke && firstError.None? ==> Present(results, outputs) && Agrees(config.dag, m, outputs, Ok(Gather(results, outputs)))
    {
      hide GoodConfig, Inv, Agrees, Acyclic;
      EveryRunIsSafe(config, m, start, trace, outputs);
    }

    /** Only a plan with a node that has no value can end that way. */
    lemma GapMeansFailure(m: seq<Result<V>>)
      requires Valid() && GoodConfig(config, m) && pc == Broke && firstError.Some?
      ensures !AllNodesOk(m)
    {
      hide GoodConfig, AllNodesOk, IsMeaning;
      if AllNodesOk(m) { NoFailureNoError(config, m, start, trace); }
    }
  }
}
