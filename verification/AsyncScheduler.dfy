/**
 The single-thread coroutine scheduler. Starting a node may run it to completion at once, and
 completing a node starts others from inside the completion, so the methods below call each
 other as the coroutines do. Whether a started node suspends, how far the clock has moved, which
 suspended node the loop resumes next, and when the loop begins to refuse posts are arbitrary
 choices, so a proof about `Execute` covers every order of events and every nesting.
 */
module AsyncScheduler {
  import opened Wrappers
  import opened DependencyGraph
  import opened PlanMeaning
  import opened NodeTracking
  import opened AsyncSteps
  import opened Timeouts

  class AsyncSchedulerState<V> {
    const setup: Setup<V>
    var depsRemaining: seq<int>
    var results: seq<Option<V>>
    var inflightCount: int
    var readyQueue: seq<nat>
    var firstError: Option<string>
    var frames: map<nat, Frame<V>>
    /** The clock when it was last read. */
    var now: int
    /** The main coroutine has suspended and left its handle. */
    var mainWaiting: bool
    /** Whether the loop still takes posts, and how often the post of the main coroutine's resumption was taken or refused. */
    var accepting: bool
    var resumesPosted: nat
    var resumesLost: nat

    ghost function View(): State<V>
      reads this
    {
      State(depsRemaining, results, readyQueue, inflightCount, firstError, frames, now)
    }

    /** `init_async_scheduler_state`. */
    constructor (dag: Dag<V>, limits: Limits, begun: int)
      requires Closed(Deps(dag))
      ensures setup.dag == dag && setup.limits == limits && setup.begun == now == begun
      ensures forall m :: IsMeaning(dag, m) ==> Good(setup, m, View(), {}, 0)
      ensures View().inflight == 0 && !mainWaiting && accepting && resumesPosted == resumesLost == 0 && firstError.None?
    {
      var rem, succ := BuildSuccessors(Deps(dag));
      var queue: seq<nat> := [];
      var i := 0;
      while i < |rem|
        invariant 0 <= i <= |rem|
        invariant queue == ZeroNodes(rem, i)
      {
        if rem[i] == 0 { queue := queue + [i]; }
        i := i + 1;
      }
      setup, depsRemaining := Setup(dag, succ, limits, begun), rem;
      results := seq(|dag|, _ => None);
      readyQueue, inflightCount, firstError, frames := queue, 0, None, map[];
      mainWaiting, accepting, resumesPosted, resumesLost, now := false, true, 0, 0, begun;
      new;
      assert View() == State(rem, seq(|dag|, _ => None), ZeroNodes(rem, |rem|), 0, None, map[], begun);
      forall m | IsMeaning(dag, m) ensures Good(setup, m, View(), {}, 0) { InitGood(setup, m, rem); }
    }

    /** `steady_clock::now`: any time later than the last. */
    method ReadClock(ghost m: seq<Result<V>>, ghost starting: set<nat>, ghost unwinding: nat)
      requires Good(setup, m, View(), starting, unwinding)
      modifies this`now
      ensures Good(setup, m, View(), starting, unwinding) && Todo(View()) == old(Todo(View())) && now >= old(now)
    {
      var later: int := *;
      ghost var s0 := View();
      if later > now {
        ReadClockGood(setup, m, s0, later, starting, unwinding);
        now := later;
        assert View() == AsyncSteps.ReadClock(s0, later);
      }
    }

    /**
     `spawn_ready_nodes`. Afterwards the queue is empty or an error is recorded. When an error is
     recorded, or the request's deadline has passed, nothing is started.
     */
    method SpawnReadyNodes(ghost m: seq<Result<V>>, ghost unwinding: nat)
      requires Good(setup, m, View(), {}, unwinding) && (unwinding > 0 || !mainWaiting)
      modifies this
      ensures Good(setup, m, View(), {}, unwinding)
      ensures firstError.Some? || readyQueue == []
      ensures unchanged(this`mainWaiting, this`accepting, this`resumesPosted, this`resumesLost)
      ensures Todo(View()) <= old(Todo(View())) && (Todo(View()) == old(Todo(View())) ==> frames == old(frames))
      ensures now >= old(now) && (old(firstError).Some? ==> firstError == old(firstError))
      ensures old(firstError).Some? || (setup.limits.request.Some? && old(now) >= setup.limits.request.value) ==>
        unchanged(this`readyQueue, this`frames, this`inflightCount, this`results) && firstError.Some?
      decreases |Todo(View())|, 1
    {
      hide Good, Todo, Justified, NodeDeadline;
      ReadClock(m, {}, unwinding);
      if Exceeded(now, setup.limits.request) {
        DeadlineGood(setup, m, View(), REQUEST_DEADLINE, unwinding);
        ghost var s0 := View();
        if firstError.None? { firstError := Some(REQUEST_DEADLINE); }
        assert View() == Fail(s0, REQUEST_DEADLINE);
        return;
      }
      StartReady(m, unwinding);
    }

    /** Its loop: the front of the queue is started until the queue is empty or an error is recorded. */
    method StartReady(ghost m: seq<Result<V>>, ghost unwinding: nat)
      requires Good(setup, m, View(), {}, unwinding) && (unwinding > 0 || !mainWaiting)
      modifies this
      ensures Good(setup, m, View(), {}, unwinding)
      ensures firstError.Some? || readyQueue == []
      ensures unchanged(this`mainWaiting, this`accepting, this`resumesPosted, this`resumesLost)
      ensures now >= old(now)
      ensures old(firstError).Some? ==> unchanged(this)
      ensures Todo(View()) <= old(Todo(View())) && (Todo(View()) == old(Todo(View())) ==> frames == old(frames))
      decreases |Todo(View())|, 0
    {
      hide Good, Todo;
      ghost var todo := Todo(View());
      while readyQueue != [] && firstError.None?
        invariant Good(setup, m, View(), {}, unwinding)
        invariant unchanged(this`mainWaiting, this`accepting, this`resumesPosted, this`resumesLost)
        invariant now >= old(now) && (old(firstError).Some? ==> unchanged(this))
        invariant Todo(View()) <= todo && (Todo(View()) == todo ==> frames == old(frames))
        decreases |Todo(View())|
      {
        ghost var s0 := View();
        PopGood(setup, m, s0, unwinding);
        CardLessEq(Todo(s0), todo);
        var node := readyQueue[0];
        readyQueue := readyQueue[1..];
        inflightCount := inflightCount + 1;
        assert View() == Pop(s0);
        RunNode(node, m, unwinding);
        CardLessEq(Todo(View()), Todo(Pop(s0)));
      }
    }

    /** `run_node_async` up to its first suspension, or to its end if it never suspends. Its task is not run when the request's deadline has passed. */
    method RunNode(node: nat, ghost m: seq<Result<V>>, ghost unwinding: nat)
      requires Good(setup, m, View(), {node}, unwinding) && (unwinding > 0 || !mainWaiting)
      modifies this
      ensures Good(setup, m, View(), {}, unwinding)
      ensures unchanged(this`mainWaiting, this`accepting, this`resumesPosted, this`resumesLost)
      ensures now >= old(now) && (old(firstError).Some? ==> firstError == old(firstError))
      ensures setup.limits.request.Some? && old(now) >= setup.limits.request.value ==> firstError.Some? && unchanged(this`results, this`frames, this`readyQueue)
      ensures Todo(View()) <= old(Todo(View()))
      decreases |Todo(View())|, 6
    {
      hide Good, Todo;
      StartedRuns(setup, m, View(), node, unwinding);
      ReadClock(m, {node}, unwinding);
      var deadline := EffectiveDeadline(setup.limits, now);
      BegunBefore(setup, m, View(), {node}, unwinding);
      assert StartedAt(setup.limits, setup.begun, now, deadline, now);
      if Exceeded(now, deadline) {
        GiveUp(node, EXPIRED_BEFORE_START, deadline, m, unwinding);
        return;
      }
      StartedRuns(setup, m, View(), node, unwinding);
      var inputs := Gather(results, setup.dag[node].inputs);
      var refs := Gather(results, setup.dag[node].refs);
      AwaitTask(node, setup.dag[node].run(inputs, refs), deadline, m, unwinding);
    }

    /** The awaitable around a task: it looks at the clock twice, and then the task ends or the node suspends. */
    method AwaitTask(node: nat, outcome: Result<V>, deadline: Option<int>, ghost m: seq<Result<V>>, ghost unwinding: nat)
      requires Good(setup, m, View(), {node}, unwinding) && (unwinding > 0 || !mainWaiting)
      requires node < |m| && outcome == m[node] && NodeDeadline(setup.limits, setup.begun, now, deadline)
      modifies this
      ensures Good(setup, m, View(), {}, unwinding)
      ensures unchanged(this`mainWaiting, this`accepting, this`resumesPosted, this`resumesLost)
      ensures now >= old(now) && (old(firstError).Some? ==> firstError == old(firstError))
      ensures deadline.Some? && old(now) >= deadline.value ==> firstError.Some? && unchanged(this`results, this`frames, this`readyQueue)
      ensures Todo(View()) <= old(Todo(View()))
      decreases |Todo(View())|, 5
    {
      hide Good, Todo;
      ReadClock(m, {node}, unwinding);
      LaterDeadline(setup.limits, setup.begun, old(now), now, deadline);
      if Exceeded(now, deadline) {
        GiveUp(node, EXPIRED, deadline, m, unwinding);
        return;
      }
      ghost var t := now;
      ReadClock(m, {node}, unwinding);
      LaterDeadline(setup.limits, setup.begun, t, now, deadline);
      if Exceeded(now, deadline) {
        GiveUp(node, EXPIRED_BEFORE_START, deadline, m, unwinding);
        return;
      }
      var suspends: bool := *;
      if suspends {
        ghost var s0 := View();
        SuspendGood(setup, m, s0, node, deadline, unwinding);
        frames := frames[node := Frame(outcome, deadline)];
        assert View() == Suspend(s0, node, Frame(outcome, deadline));
        SameTodo(s0, View());
      } else {
        Complete(node, outcome, m, unwinding);
        UnwindingCounts(setup, m, View(), unwinding);
      }
    }

    /** A node whose deadline has passed before its task runs ends with a timeout. */
    method GiveUp(node: nat, e: string, deadline: Option<int>, ghost m: seq<Result<V>>, ghost unwinding: nat)
      requires Good(setup, m, View(), {node}, unwinding) && (unwinding > 0 || !mainWaiting) && node < |m|
      requires IsNodeTimeout(e) && NodeDeadline(setup.limits, setup.begun, now, deadline) && Exceeded(now, deadline)
      modifies this
      ensures Good(setup, m, View(), {}, unwinding) && firstError.Some? && unchanged(this`results, this`frames, this`readyQueue)
      ensures unchanged(this`mainWaiting, this`accepting, this`resumesPosted, this`resumesLost)
      ensures now >= old(now) && (old(firstError).Some? ==> firstError == old(firstError))
      ensures Todo(View()) <= old(Todo(View()))
      decreases |Todo(View())|, 4
    {
      hide Good, Todo;
      GivenUpRightly(setup.limits, setup.begun, now, deadline, e);
      Complete(node, Err(e), m, unwinding);
      UnwindingCounts(setup, m, View(), unwinding);
    }

    /**
     The tail of `run_node_async`: record the outcome, then decrement, and post the resumption
     of the main coroutine if this was the last one in flight and it is waiting. Nobody looks at
     whether the loop took the post.
     */
    method Complete(node: nat, outcome: Result<V>, ghost m: seq<Result<V>>, ghost unwinding: nat)
      requires Good(setup, m, View(), {node}, unwinding) && node < |m|
      requires outcome == m[node] || (outcome.Err? && Justified(setup.limits, setup.begun, now, outcome.error))
      modifies this
      ensures Good(setup, m, View(), {}, unwinding)
      ensures firstError.Some? || readyQueue == []
      ensures unchanged(this`mainWaiting, this`accepting)
      ensures resumesPosted == old(resumesPosted) + if inflightCount == 0 && mainWaiting && accepting then 1 else 0
      ensures resumesLost == old(resumesLost) + if inflightCount == 0 && mainWaiting && !accepting then 1 else 0
      ensures Todo(View()) <= old(Todo(View())) && (Todo(View()) == old(Todo(View())) ==> frames == old(frames))
      ensures now >= old(now) && (old(firstError).Some? ==> firstError == old(firstError))
      ensures outcome.Err? ==> firstError == if old(firstError).Some? then old(firstError) else Some(outcome.error)
      ensures old(firstError).Some? || outcome.Err? ==> unchanged(this`frames)
      ensures outcome.Err? ==> unchanged(this`results, this`readyQueue)
      decreases |Todo(View())|, 3
    {
      hide Good;
      match outcome {
        case Ok(v) => OnNodeSuccess(node, v, m, unwinding);
        case Err(e) => OnNodeFailure(node, e, m, unwinding);
      }
      ghost var s0 := View();
      DecrementGood(setup, m, s0, unwinding);
      inflightCount := inflightCount - 1;
      assert View() == Decrement(s0);
      if inflightCount == 0 && mainWaiting {
        if accepting { resumesPosted := resumesPosted + 1; } else { resumesLost := resumesLost + 1; }
      }
      assert View() == Decrement(s0);
    }

    method OnNodeSuccess(node: nat, v: V, ghost m: seq<Result<V>>, ghost unwinding: nat)
      requires Good(setup, m, View(), {node}, unwinding) && node < |m| && m[node] == Ok(v)
      modifies this
      ensures Good(setup, m, View(), {}, unwinding + 1)
      ensures firstError.Some? || readyQueue == []
      ensures unchanged(this`mainWaiting, this`accepting, this`resumesPosted, this`resumesLost)
      ensures Todo(View()) <= old(Todo(View())) && (Todo(View()) == old(Todo(View())) ==> frames == old(frames))
      ensures now >= old(now) && (old(firstError).Some? ==> firstError == old(firstError))
      ensures old(firstError).Some? ==> unchanged(this`frames)
      decreases |Todo(View())|, 2
    {
      ghost var s0 := View();
      SucceedGood(setup, m, s0, node, v, unwinding);
      results := results[node := Some(v)];
      WakeSuccessors(node);
      assert View() == Succeed(setup, s0, node, v);
      SpawnReadyNodes(m, unwinding + 1);
    }

    /** The loop that counts down the successors of a finished node. */
    method WakeSuccessors(node: nat)
      requires node < |setup.succ| && Below(setup.succ[node], |depsRemaining|)
      modifies this`depsRemaining, this`readyQueue
      ensures depsRemaining == Wake(old(depsRemaining), setup.succ[node]).0
      ensures readyQueue == old(readyQueue) + Wake(old(depsRemaining), setup.succ[node]).1
    {
      var succ := setup.succ[node];
      var k := 0;
      while k < |succ|
        invariant 0 <= k <= |succ|
        invariant Below(succ[..k], |old(depsRemaining)|)
        invariant depsRemaining == Wake(old(depsRemaining), succ[..k]).0
        invariant readyQueue == old(readyQueue) + Wake(old(depsRemaining), succ[..k]).1
      {
        assert succ[..k+1][..k] == succ[..k];
        var s := succ[k];
        depsRemaining := depsRemaining[s := depsRemaining[s] - 1];
        if depsRemaining[s] == 0 { readyQueue := readyQueue + [s]; }
        k := k + 1;
      }
      assert succ[..k] == succ;
    }

    method OnNodeFailure(node: nat, e: string, ghost m: seq<Result<V>>, ghost unwinding: nat)
      requires Good(setup, m, View(), {node}, unwinding) && node < |m| && (m[node] == Err(e) || Justified(setup.limits, setup.begun, now, e))
      modifies this`firstError
      ensures Good(setup, m, View(), {}, unwinding + 1)
      ensures firstError == if old(firstError).Some? then old(firstError) else Some(e)
    {
      ghost var s0 := View();
      FailGood(setup, m, s0, node, e, unwinding);
      if firstError.None? { firstError := Some(e); }
      assert View() == Fail(s0, e);
    }

    /**
     `execute_plan_async`, with the event loop that drives it. At any moment the loop may begin to
     refuse posts, and from then on it may end with coroutines still suspended. A resumed node may
     suspend again, `suspensions` times in all.

     The main coroutine goes on if and only if nothing is in flight when it gets to its await, or
     the post of its resumption is taken: always, while the loop takes posts. It then goes on once,
     with nothing in flight, and the call returns the plan's meaning or an error: that of a node
     that failed itself, or the timeout of a deadline that has passed. While no deadline has passed,
     it succeeds exactly if every node has a value. If main does not go on (`None`), either the last
     node ended and its post was refused, or nodes are left suspended.
     */
    method Execute(outputs: seq<nat>, suspensions: nat, ghost m: seq<Result<V>>) returns (r: Option<Result<seq<V>>>)
      requires Good(setup, m, View(), {}, 0) && View().inflight == 0
      requires !mainWaiting && resumesPosted == resumesLost == 0 && firstError.None?
      requires Acyclic(Deps(setup.dag)) && Below(outputs, |setup.dag|)
      modifies this
      ensures r.Some? <==> !mainWaiting || resumesPosted == 1
      ensures accepting ==> r.Some?
      ensures resumesPosted + resumesLost == if mainWaiting && inflightCount == 0 then 1 else 0
      ensures r.Some? || resumesLost == 1 ==> inflightCount == 0 && frames == map[]
      ensures r.None? ==> resumesLost == 1 || frames != map[]
      ensures r.Some? && r.value.Ok? ==> Agrees(setup.dag, m, outputs, r.value)
      ensures r.Some? && r.value.Err? ==> Genuine(setup, m, now, r.value.error)
      ensures r.Some? && OnTime(setup.limits, setup.begun, now) ==> Agrees(setup.dag, m, outputs, r.value)
    {
      hide Good, Agrees, Todo, Acyclic, Genuine, OnTime;
      SpawnReadyNodes(m, 0);
      if inflightCount != 0 {
        InFlightIsFrames(setup, m, View());
        mainWaiting := true;
        RunLoop(suspensions, m);
      }
      if inflightCount == 0 { QuietIsComplete(setup, m, View(), outputs); }
      if mainWaiting && resumesPosted == 0 { return None; }
      if firstError.Some? { return Some(Err(firstError.value)); }
      return Some(Ok(Gather(results, outputs)));
    }

    /** The loop runs callbacks until the resumption of main has been posted, or has been refused, or the loop ends. */
    method RunLoop(suspensions: nat, ghost m: seq<Result<V>>)
      requires Good(setup, m, View(), {}, 0) && (firstError.Some? || readyQueue == [])
      requires mainWaiting && resumesPosted == resumesLost == 0 && frames != map[] && inflightCount != 0
      modifies this
      ensures Good(setup, m, View(), {}, 0) && (firstError.Some? || readyQueue == []) && mainWaiting
      ensures resumesPosted + resumesLost == if inflightCount == 0 then 1 else 0
      ensures accepting ==> resumesPosted == 1
      ensures inflightCount != 0 ==> frames != map[]
    {
      hide Good, Todo;
      var left := suspensions;
      while resumesPosted + resumesLost == 0
        invariant Good(setup, m, View(), {}, 0) && mainWaiting
        invariant firstError.Some? || readyQueue == []
        invariant resumesPosted + resumesLost == (if inflightCount == 0 then 1 else 0)
        invariant resumesLost == 1 ==> !accepting
        decreases left, |Todo(View())|, |frames.Keys|
      {
        InFlightIsFrames(setup, m, View());
        var stops, ends, again: bool := *, *, *;
        if stops { accepting := false; }
        if !accepting && ends { return; }
        if left > 0 && again { left := left - 1; } else { ResumeOne(m); }
      }
    }

    /**
     The loop resumes some suspended node, which then ends: with its task's outcome, or, if its
     deadline has passed or its timer has fired for it, with a timeout.
     */
    method ResumeOne(ghost m: seq<Result<V>>)
      requires Good(setup, m, View(), {}, 0) && frames != map[]
      modifies this
      ensures Good(setup, m, View(), {}, 0)
      ensures firstError.Some? || readyQueue == []
      ensures unchanged(this`mainWaiting, this`accepting)
      ensures resumesPosted == old(resumesPosted) + if inflightCount == 0 && mainWaiting && accepting then 1 else 0
      ensures resumesLost == old(resumesLost) + if inflightCount == 0 && mainWaiting && !accepting then 1 else 0
      ensures now >= old(now) && (old(firstError).Some? ==> firstError == old(firstError))
      ensures |Todo(View())| < |old(Todo(View()))| || (Todo(View()) == old(Todo(View())) && |frames.Keys| < |old(frames.Keys)|)
    {
      hide Good, Todo, Justified;
      ReadClock(m, {}, 0);
      ghost var s0 := View();
      var node :| node in frames.Keys;
      var frame := frames[node];
      UnsuspendGood(setup, m, s0, node, 0);
      frames := frames - {node};
      ghost var s1 := View();
      assert s1 == Unsuspend(s0, node);
      SameTodo(s0, s1);
      assert frames.Keys == s0.frames.Keys - {node};
      var fired: bool := *;
      var outcome := WakeWith(frame, fired);
      Complete(node, outcome, m, 0);
      if Todo(View()) != Todo(s0) { ProperCardLess(Todo(View()), Todo(s0)); }
    }

    /** What a resumed node finds: the timeout, if its timer has fired, which it does for its deadline; else its task's outcome. */
    method WakeWith(frame: Frame<V>, fired: bool) returns (outcome: Result<V>)
      requires NodeDeadline(setup.limits, setup.begun, now, frame.deadline)
      ensures outcome == if fired && frame.deadline.Some? && now + setup.limits.early >= frame.deadline.value then Err(NODE_TIMEOUT) else frame.outcome
      ensures outcome == frame.outcome || (outcome.Err? && Justified(setup.limits, setup.begun, now, outcome.error))
    {
      if fired && Exceeded(now + setup.limits.early, frame.deadline) {
        GivenUpRightly(setup.limits, setup.begun, now, frame.deadline, NODE_TIMEOUT);
        return Err(NODE_TIMEOUT);
      }
      return frame.outcome;
    }
  }

  lemma SameTodo<V>(s: State<V>, s': State<V>)
    requires s'.rem == s.rem && s'.ready == s.ready
    ensures Todo(s') == Todo(s)
  {
  }

  lemma CardLessEq(a: set<nat>, b: set<nat>)
    requires a <= b
    ensures |a| <= |b|
  {
    assert b == a + (b - a);
  }

  lemma ProperCardLess(a: set<nat>, b: set<nat>)
    requires a < b
    ensures |a| < |b|
  {
    var x :| x in b && x !in a;
    assert a <= b - {x};
    CardLessEq(a, b - {x});
  }
}
