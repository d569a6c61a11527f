/**
 `OffloadCpuWithTimeout`: a coroutine waits for a job on the CPU pool or for its deadline.

 The job ends on a pool thread and posts its completion; the deadline timer is itself made by a
 posted callback. The loop may be stopped at any time: from then on posts are refused, and a refused
 completion is lost; a little later the walk over the loop's handles closes every open timer without
 it firing.
 */
module OffloadTimeout {
  import opened Wrappers
  import opened Timeouts

  datatype Stage = Fresh | Checked | Submitted | Waiting | NotSuspended

  /** The loop accepts posts, or is being stopped, or has closed its handles. */
  datatype Loop = Up | Stopping | HandlesClosed

  datatype Item = Complete | MakeTimer | Resume

  /**
   `timer` is the pointer in the shared state and `open` whether its handle is open; `made`, `walked`
   and `closes` record that a timer was made, that the stop's walk closed it, and how often
   `uv_close` was called on it. `jobResult` travels with the completion, `jobPosted` says that its
   post was accepted, `fired` that the timer timed the wait out.
   */
  datatype State<V> = State(
    stage: Stage, loop: Loop,
    completed: bool, result: Option<Result<V>>, timer: bool,
    queue: seq<Item>,
    jobResult: Option<Result<V>>, jobPosted: bool, timerPosted: bool, fired: bool,
    resumes: nat, open: bool, made: bool, walked: bool, closes: nat)

  datatype Step<V> =
    | ReadyCheck(expired: bool)
    | SuspendCheck(expired: bool)
    | JobEnds(ended: Result<V>)
    | EndSuspend(deadline: bool)
    | RunNext
    | TimerFires
    | StopBegins
    | CloseHandles

  function Start<V>(): State<V> {
    State(Fresh, Up, false, None, false, [], None, false, false, false, 0, false, false, false, 0)
  }

  /** The job may end as soon as it is submitted; the loop thread is busy until `await_suspend` returns. */
  predicate Enabled<V>(s: State<V>, step: Step<V>) {
    match step
    case ReadyCheck(_) => s.stage == Fresh
    case SuspendCheck(_) => s.stage == Checked
    case JobEnds(_) => (s.stage == Submitted || s.stage == Waiting) && s.jobResult == None
    case EndSuspend(_) => s.stage == Submitted
    case RunNext => s.stage == Waiting && s.queue != []
    case TimerFires => s.stage == Waiting && s.open
    case StopBegins => s.loop == Up
    case CloseHandles => s.loop == Stopping
  }

  function CloseTimer<V>(s: State<V>): State<V> {
    if s.timer then s.(timer := false, open := false, closes := s.closes + 1) else s
  }

  function Decide<V>(s: State<V>, r: Option<Result<V>>): State<V> { CloseTimer(s.(completed := true, result := r)) }

  function RunItem<V>(s: State<V>, item: Item): State<V> {
    match item
    case Complete => if s.completed then s else var s := Decide(s, s.jobResult); s.(resumes := s.resumes + 1)
    case MakeTimer => if s.completed then s else s.(timer := true, open := true, made := true)
    case Resume => s.(resumes := s.resumes + 1)
  }

  /** On the loop thread a refused post is made good by resuming directly. */
  function PostOrResume<V>(s: State<V>): State<V> {
    if s.loop == Up then s.(queue := s.queue + [Resume]) else s.(resumes := s.resumes + 1)
  }

  function DoStep<V>(s: State<V>, step: Step<V>): State<V>
    requires Enabled(s, step)
  {
    match step
    case ReadyCheck(expired) =>
      if expired then s.(stage := NotSuspended, result := Some(Err(EXPIRED)), resumes := s.resumes + 1)
      else s.(stage := Checked)
    case SuspendCheck(expired) =>
      if expired then
        s.(stage := NotSuspended, completed := true, result := Some(Err(EXPIRED_BEFORE_START)), resumes := s.resumes + 1)
      else s.(stage := Submitted)
    case JobEnds(ended) =>
      if s.loop == Up then s.(jobResult := Some(ended), jobPosted := true, queue := s.queue + [Complete])
      else s.(jobResult := Some(ended))
    case EndSuspend(deadline) =>
      if deadline && s.loop == Up then s.(stage := Waiting, timerPosted := true, queue := s.queue + [MakeTimer])
      else s.(stage := Waiting)
    case RunNext => RunItem(s.(queue := s.queue[1..]), s.queue[0])
    case TimerFires =>
      if s.completed then s else PostOrResume(Decide(s.(fired := true), Some(Err(NODE_TIMEOUT))))
    case StopBegins => s.(loop := Stopping)
    case CloseHandles =>
      var s := s.(loop := HandlesClosed);
      if s.open then s.(open := false, walked := true, closes := s.closes + 1) else s
  }

  ghost predicate IsRun<V>(s: State<V>, steps: seq<Step<V>>)
    decreases |steps|
  {
    steps == [] || (Enabled(s, steps[0]) && IsRun(DoStep(s, steps[0]), steps[1..]))
  }

  ghost function After<V>(s: State<V>, steps: seq<Step<V>>): State<V>
    requires IsRun(s, steps)
    decreases |steps|
  {
    if steps == [] then s else After(DoStep(s, steps[0]), steps[1..])
  }

  function Count(queue: seq<Item>, item: Item): nat { multiset(queue)[item] }

  lemma CountsFront(queue: seq<Item>)
    requires queue != []
    ensures forall item :: Count(queue, item) == Count(queue[1..], item) + if queue[0] == item then 1 else 0
  {
    forall item ensures Count(queue, item) == Count(queue[1..], item) + if queue[0] == item then 1 else 0 {
      assert queue == [queue[0]] + queue[1..];
    }
  }

  lemma CountsBack(queue: seq<Item>, last: Item)
    ensures forall item :: Count(queue + [last], item) == Count(queue, item) + if last == item then 1 else 0
  {
  }

  /** The resumption is owed exactly once after the wait is decided, by the completion or by the timer. */
  ghost predicate ResumeInv<V>(s: State<V>) {
    && s.resumes + Count(s.queue, Resume) == (if s.completed || s.stage == NotSuspended then 1 else 0)
    && Count(s.queue, Complete) <= 1
    && (s.jobPosted ==> s.jobResult.Some?)
    && (Count(s.queue, Complete) == 1 ==> s.jobPosted)
    && (s.jobPosted && Count(s.queue, Complete) == 0 ==> s.completed)
    && (s.stage != Waiting ==> !s.fired && (s.completed ==> s.stage == NotSuspended && s.result.Some?))
    && (s.stage != Waiting && s.stage != Submitted ==> s.jobResult == None)
    && (s.stage == Waiting && s.completed ==>
          if s.fired then s.result == Some(Err(NODE_TIMEOUT)) else s.jobPosted && s.result == s.jobResult)
    && (s.fired ==> s.completed)
    && (s.loop == Up ==> (s.jobPosted <==> s.jobResult.Some?))
  }

  /** A timer whose pointer is still there has been closed at most by the walk, and any other just once more. */
  ghost predicate TimerInv<V>(s: State<V>) {
    && (s.timer ==> s.made && !s.completed && (s.open <==> !s.walked))
    && (s.open ==> s.timer) && (s.walked ==> s.made && s.loop == HandlesClosed)
    && (if s.made then 1 else 0) + Count(s.queue, MakeTimer) <= (if s.timerPosted then 1 else 0)
    && (s.timerPosted ==> s.stage == Waiting && (Count(s.queue, MakeTimer) == 1 || s.timer || s.completed))
    && (s.made && !s.timer ==> s.completed)
    && s.closes == (if s.made && !s.timer then 1 else 0) + (if s.walked then 1 else 0)
    && (s.fired ==> s.made && !s.walked)
  }

  ghost predicate Inv<V>(s: State<V>) { ResumeInv(s) && TimerInv(s) }

  lemma StepInv<V>(s: State<V>, step: Step<V>)
    requires Inv(s) && Enabled(s, step)
    ensures Inv(DoStep(s, step))
  {
    hide Count;
    match step
    case RunNext => CountsFront(s.queue);
    case JobEnds(_) => CountsBack(s.queue, Complete);
    case EndSuspend(_) => CountsBack(s.queue, MakeTimer);
    case TimerFires => CountsBack(s.queue, Resume);
    case _ =>
  }

  lemma {:induction false} RunInv<V>(s: State<V>, steps: seq<Step<V>>)
    requires Inv(s) && IsRun(s, steps)
    ensures Inv(After(s, steps))
    decreases |steps|
  {
    hide Inv;
    if steps != [] {
      StepInv(s, steps[0]);
      RunInv(DoStep(s, steps[0]), steps[1..]);
    }
  }

  lemma {:induction false} RunSnoc<V>(s: State<V>, steps: seq<Step<V>>, step: Step<V>)
    requires IsRun(s, steps) && Enabled(After(s, steps), step)
    ensures IsRun(s, steps + [step]) && After(s, steps + [step]) == DoStep(After(s, steps), step)
    decreases |steps|
  {
    hide Enabled, DoStep;
    if steps != [] {
      RunSnoc(DoStep(s, steps[0]), steps[1..], step);
      assert (steps + [step])[1..] == steps[1..] + [step];
    } else {
      assert [step][1..] == [] && After(DoStep(s, step), []) == DoStep(s, step);
    }
  }

  lemma StartInv<V>()
    ensures Inv(Start<V>())
  {
  }

  lemma Reached<V>(steps: seq<Step<V>>)
    requires IsRun(Start<V>(), steps)
    ensures Inv(After(Start<V>(), steps))
  {
    hide *;
    StartInv<V>();
    RunInv(Start<V>(), steps);
  }

  /** Never resumed twice, and what the waiter gets is the job's own result or the timeout. */
  ghost predicate AtMostOnce<V>(s: State<V>) {
    && s.resumes <= 1
    && (s.stage == Waiting && s.resumes == 1 ==>
          !s.timer && s.result == if s.fired then Some(Err(NODE_TIMEOUT)) else s.jobResult)
  }

  lemma ResumedAtMostOnce<V>(steps: seq<Step<V>>)
    requires IsRun(Start<V>(), steps)
    ensures AtMostOnce(After(Start<V>(), steps))
  {
    Reached(steps);
    hide IsRun, After, Count;
  }

  /**
   When the waiter is resumed: with nothing queued, it has been if and only if the loop accepted the
   completion, or the deadline passed while the timer was still open. A timer closed by the stop's
   walk counts for nothing, and while the loop is up the waiter is always resumed.
   */
  lemma ResumedIff<V>(steps: seq<Step<V>>)
    requires IsRun(Start<V>(), steps)
    ensures var s := After(Start<V>(), steps);
      s.stage == Waiting && s.queue == [] ==>
        && (s.resumes == 1 <==> s.jobPosted || s.fired)
        && (s.walked ==> !s.fired)
        && (s.loop == Up && s.jobResult.Some? ==> s.resumes == 1)
  {
    Reached(steps);
    var s := After(Start<V>(), steps);
    hide IsRun, After;
    if s.queue == [] { assert forall item :: Count(s.queue, item) == 0; }
    hide Count;
  }

  /** The waiter is suspended, its job's completion was refused, and there is no timer that could fire. */
  ghost predicate Lost<V>(s: State<V>) {
    s.stage == Waiting && s.queue == [] && s.resumes == 0 && s.jobResult.Some? && !s.open && s.loop != Up
  }

  /** Nothing that can still happen resumes it. */
  lemma {:induction false} LostForGood<V>(s: State<V>, steps: seq<Step<V>>)
    requires Lost(s) && IsRun(s, steps)
    ensures Lost(After(s, steps))
    decreases |steps|
  {
    if steps != [] { LostForGood(DoStep(s, steps[0]), steps[1..]); }
  }

  /** Two ways to get there: no deadline at all, and a deadline whose timer the stop's walk closes. */
  lemma LostCompletion(deadline: bool) returns (steps: seq<Step<int>>)
    ensures IsRun(Start<int>(), steps) && Lost(After(Start<int>(), steps))
    ensures After(Start<int>(), steps).made == After(Start<int>(), steps).walked == deadline
  {
    var s3 := DoStep(DoStep(DoStep(Start<int>(), ReadyCheck(false)), SuspendCheck(false)), EndSuspend(deadline));
    steps := FirstThree(deadline);
    if deadline {
      assert s3.queue == [MakeTimer] && s3.queue[1..] == [];
      RunSnoc(Start<int>(), steps, RunNext);
      steps := steps + [RunNext];
    }
    var s4 := After(Start<int>(), steps);
    assert s4.stage == Waiting && s4.queue == [] && s4.loop == Up && s4.jobResult.None? && s4.resumes == 0;
    assert s4.open == s4.made == deadline && !s4.walked;
    hide IsRun, After;
    RunSnoc(Start<int>(), steps, StopBegins);
    RunSnoc(Start<int>(), steps + [StopBegins], CloseHandles);
    steps := steps + [StopBegins] + [CloseHandles];
    RunSnoc(Start<int>(), steps, JobEnds(Ok(1)));
    steps := steps + [JobEnds(Ok(1))];
  }

  lemma FirstThree(deadline: bool) returns (steps: seq<Step<int>>)
    ensures IsRun(Start<int>(), steps)
    ensures After(Start<int>(), steps) == DoStep(DoStep(DoStep(Start<int>(), ReadyCheck(false)), SuspendCheck(false)), EndSuspend(deadline))
  {
    var a, b := ReadyCheck(false), SuspendCheck(false);
    assert IsRun(Start<int>(), []) && After(Start<int>(), []) == Start<int>();
    hide IsRun, After;
    RunSnoc(Start<int>(), [], a);
    RunSnoc(Start<int>(), [] + [a], b);
    RunSnoc(Start<int>(), [] + [a] + [b], EndSuspend(deadline));
    steps := [] + [a] + [b] + [EndSuspend(deadline)];
  }

  /**
   When a timer is closed twice: exactly when the stop's walk closed it during the wait, and a
   completion that had been accepted before then ran. In every other run it is closed at most once.
   */
  lemma ClosedTwiceIff<V>(steps: seq<Step<V>>)
    requires IsRun(Start<V>(), steps)
    ensures var s := After(Start<V>(), steps);
      && s.closes <= 2
      && (s.closes == 2 <==> s.walked && s.completed)
      && (s.loop != HandlesClosed ==> s.closes <= 1)
      && (s.completed && s.made && !s.walked ==> s.closes == 1)
  {
    Reached(steps);
    hide IsRun, After, ResumeInv, Count;
  }

  /** Such a run: the completion is queued, the loop is stopped from an earlier callback, and the drain goes on. */
  lemma ClosedTwice() returns (steps: seq<Step<int>>)
    ensures IsRun(Start<int>(), steps) && After(Start<int>(), steps).closes == 2
  {
    steps := FirstThree(true);
    var s3 := After(Start<int>(), steps);
    assert s3.queue == [MakeTimer] && s3.queue[1..] == [];
    hide IsRun, After;
    RunSnoc(Start<int>(), steps, RunNext);
    RunSnoc(Start<int>(), steps + [RunNext], JobEnds(Ok(1)));
    steps := steps + [RunNext] + [JobEnds(Ok(1))];
    var s5 := After(Start<int>(), steps);
    assert s5.queue == [Complete] && s5.open && s5.timer && !s5.completed && s5.closes == 0;
    RunSnoc(Start<int>(), steps, StopBegins);
    RunSnoc(Start<int>(), steps + [StopBegins], CloseHandles);
    steps := steps + [StopBegins] + [CloseHandles];
    RunSnoc(Start<int>(), steps, RunNext);
    steps := steps + [RunNext];
  }

  lemma ResultStays<V>(s: State<V>, step: Step<V>)
    requires Inv(s) && Enabled(s, step) && s.result.Some? && s.completed
    ensures DoStep(s, step).result == s.result
  {
    hide Count;
  }

  /** The awaitable's shared `State` with the loop's queue; `trace` is the run that brought it here. */
  class SharedState<V(==)> {
    var stage: Stage
    var loop: Loop
    var completed: bool
    var result: Option<Result<V>>
    var timer: bool
    var queue: seq<Item>
    // What the pool thread and the two posts did, and what was carried out.
    var jobResult: Option<Result<V>>
    var jobPosted: bool
    var timerPosted: bool
    var fired: bool
    var resumes: nat
    var open: bool
    var made: bool
    var walked: bool
    var closes: nat
    ghost var trace: seq<Step<V>>

    ghost function View(): State<V>
      reads this
    {
      State(stage, loop, completed, result, timer, queue, jobResult, jobPosted, timerPosted, fired,
            resumes, open, made, walked, closes)
    }

    ghost predicate Valid()
      reads this
    {
      IsRun(Start<V>(), trace) && After(Start<V>(), trace) == View()
    }

    constructor ()
      ensures Valid() && trace == [] && stage == Fresh && loop == Up
    {
      stage, loop, completed, result, timer, queue := Fresh, Up, false, None, false, [];
      jobResult, jobPosted, timerPosted, fired := None, false, false, false;
      resumes, open, made, walked, closes, trace := 0, false, false, false, 0, [];
    }

    lemma Reachable()
      requires Valid()
      ensures Inv(View())
    {
      Reached(trace);
    }

    ghost method Record(before: State<V>, step: Step<V>)
      requires IsRun(Start<V>(), trace) && After(Start<V>(), trace) == before
      requires Enabled(before, step) && View() == DoStep(before, step)
      modifies this`trace
      ensures Valid() && trace == old(trace) + [step]
    {
      RunSnoc(Start<V>(), trace, step);
      trace := trace + [step];
    }

    method AwaitReady(expired: bool)
      requires Valid() && stage == Fresh
      modifies this`stage, this`result, this`resumes, this`trace
      ensures Valid() && trace == old(trace) + [ReadyCheck(expired)]
      ensures if expired then stage == NotSuspended && result == Some(Err(EXPIRED)) && resumes == 1
        else stage == Checked && unchanged(this`result, this`resumes)
    {
      Reachable();
      hide IsRun, After;
      ghost var before := View();
      if expired {
        stage, result, resumes := NotSuspended, Some(Err(EXPIRED)), resumes + 1;
      } else {
        stage := Checked;
      }
      Record(before, ReadyCheck(expired));
    }

    /** `await_suspend` up to the submission of the job. */
    method BeginSuspend(expired: bool)
      requires Valid() && stage == Checked
      modifies this`stage, this`completed, this`result, this`resumes, this`trace
      ensures Valid() && trace == old(trace) + [SuspendCheck(expired)]
      ensures if expired then stage == NotSuspended && completed && result == Some(Err(EXPIRED_BEFORE_START)) && resumes == 1
        else stage == Submitted && unchanged(this`completed, this`result, this`resumes)
    {
      Reachable();
      hide IsRun, After;
      ghost var before := View();
      if expired {
        stage, completed, result, resumes := NotSuspended, true, Some(Err(EXPIRED_BEFORE_START)), resumes + 1;
      } else {
        stage := Submitted;
      }
      Record(before, SuspendCheck(expired));
    }

    /** The pool thread has run the job and posts its completion, which is accepted exactly while the loop is up. */
    method JobFinishes(ended: Result<V>)
      requires Valid() && Enabled(View(), JobEnds(ended))
      modifies this`jobResult, this`jobPosted, this`queue, this`trace
      ensures Valid() && trace == old(trace) + [JobEnds(ended)]
      ensures jobResult == Some(ended) && (jobPosted <==> loop == Up)
      ensures queue == if loop == Up then old(queue) + [Complete] else old(queue)
    {
      hide IsRun, After;
      Reachable();
      ghost var before := View();
      jobResult := Some(ended);
      if loop == Up { jobPosted, queue := true, queue + [Complete]; }
      Record(before, JobEnds(ended));
    }

    /** The rest of `await_suspend`. */
    method EndSuspending(deadline: bool)
      requires Valid() && stage == Submitted
      modifies this`timerPosted, this`queue, this`stage, this`trace
      ensures Valid() && trace == old(trace) + [EndSuspend(deadline)]
      ensures stage == Waiting && !made && (timerPosted <==> deadline && loop == Up)
      ensures queue == if timerPosted then old(queue) + [MakeTimer] else old(queue)
    {
      hide IsRun, After;
      Reachable();
      ghost var before := View();
      if deadline && loop == Up { timerPosted, queue := true, queue + [MakeTimer]; }
      stage := Waiting;
      Record(before, EndSuspend(deadline));
    }

    /** The front of the loop's queue runs. */
    method RunFront()
      requires Valid() && Enabled(View(), RunNext)
      modifies this`queue, this`completed, this`result, this`timer, this`open, this`made, this`closes, this`resumes, this`trace
      ensures Valid() && trace == old(trace) + [RunNext] && queue == old(queue)[1..] && resumes <= 1
      ensures old(completed) ==> unchanged(this`completed, this`result, this`timer, this`open, this`made, this`closes)
      ensures old(queue)[0] == Complete ==> completed && !timer && !open && resumes == if old(completed) then old(resumes) else 1
      ensures old(queue)[0] == Complete && !old(completed) ==>
        jobResult.Some? && result == jobResult && made == old(made) && closes == old(closes) + if old(timer) then 1 else 0
      ensures old(queue)[0] == MakeTimer && !old(completed) ==> timer && open && made && unchanged(this`completed, this`result, this`closes, this`resumes)
      ensures old(queue)[0] == Resume ==> old(completed) && resumes == 1
    {
      Reachable();
      CompletionMeans(View());
      ghost var before := View();
      hide IsRun, After, Inv;
      var item := queue[0];
      queue := queue[1..];
      match item {
        case Complete => OnComplete();
        case MakeTimer => OnMakeTimer();
        case Resume => resumes := resumes + 1;
      }
      Record(before, RunNext);
    }

    /** The posted completion: discarded if the timer has fired; otherwise it decides, closes the timer and resumes. */
    method OnComplete()
      modifies this`completed, this`result, this`timer, this`open, this`closes, this`resumes
      ensures View() == RunItem(old(View()), Complete)
    {
      if completed { return; }
      Settle(jobResult);
      resumes := resumes + 1;
    }

    method OnMakeTimer()
      modifies this`timer, this`open, this`made
      ensures View() == RunItem(old(View()), MakeTimer)
    {
      if !completed { timer, open, made := true, true, true; }
    }

    method Settle(r: Option<Result<V>>)
      modifies this`completed, this`result, this`timer, this`open, this`closes
      ensures View() == Decide(old(View()), r)
    {
      completed, result := true, r;
      if timer { timer, open, closes := false, false, closes + 1; }
    }

    method ResumeWaiter()
      modifies this`queue, this`resumes
      ensures View() == PostOrResume(old(View()))
    {
      if loop == Up { queue := queue + [Resume]; } else { resumes := resumes + 1; }
    }

    /** The timer callback: the wait was undecided, the timer is closed for the first time, and one resumption is on its way. */
    method OnTimeout()
      requires Valid() && Enabled(View(), TimerFires)
      modifies this`fired, this`completed, this`result, this`timer, this`open, this`closes, this`queue, this`resumes, this`trace
      ensures Valid() && trace == old(trace) + [TimerFires]
      ensures !old(completed) && completed && fired && result == Some(Err(NODE_TIMEOUT)) && !timer && !open && closes == 1
      ensures if loop == Up then queue == old(queue) + [Resume] && resumes == 0 else queue == old(queue) && resumes == 1
    {
      Reachable();
      TimeoutMeans(View());
      ghost var before := View();
      hide IsRun, After, Inv, CloseTimer, Decide, PostOrResume;
      if !completed {
        fired := true;
        Settle(Some(Err(NODE_TIMEOUT)));
        ResumeWaiter();
      }
      Record(before, TimerFires);
    }

    /** `Stop` has begun, or its walk reaches this wait's timer. */
    method LoopStops()
      requires Valid() && loop != HandlesClosed
      modifies this`loop, this`open, this`walked, this`closes, this`trace
      ensures Valid() && trace == old(trace) + [if old(loop) == Up then StopBegins else CloseHandles]
      ensures old(loop) == Up ==> loop == Stopping && unchanged(this`open, this`walked, this`closes)
      ensures old(loop) == Stopping ==>
        loop == HandlesClosed && !open && (walked <==> timer) && closes == old(closes) + if old(open) then 1 else 0
    {
      hide IsRun, After;
      Reachable();
      ghost var before := View();
      if loop == Up {
        loop := Stopping;
        Record(before, StopBegins);
      } else {
        loop := HandlesClosed;
        if open { open, walked, closes := false, true, closes + 1; }
        Record(before, CloseHandles);
      }
    }

    /** What happens next, if it can. */
    method Turn(wish: Step<V>)
      requires Valid()
      modifies this
      ensures Valid() && old(trace) <= trace
    {
      hide Valid;
      match wish
      case ReadyCheck(expired) => if stage == Fresh { AwaitReady(expired); }
      case SuspendCheck(expired) => if stage == Checked { BeginSuspend(expired); }
      case JobEnds(ended) => if (stage == Submitted || stage == Waiting) && jobResult == None { JobFinishes(ended); }
      case EndSuspend(deadline) => if stage == Submitted { EndSuspending(deadline); }
      case RunNext => if stage == Waiting && queue != [] { RunFront(); }
      case TimerFires => if stage == Waiting && open { OnTimeout(); }
      case StopBegins => if loop == Up { LoopStops(); }
      case CloseHandles => if loop == Stopping { LoopStops(); }
    }

    /**
     The life of one wait, with things happening in any order. The waiter is resumed at most once;
     with nothing queued, exactly if the completion was accepted or the timer fired; and always if
     the loop is still up when the job has ended.
     */
    method Interleave(wishes: seq<Step<V>>)
      requires Valid()
      modifies this
      ensures Valid() && resumes <= 1
      ensures stage == Waiting && queue == [] ==> (resumes == 1 <==> jobPosted || fired)
      ensures stage == Waiting && queue == [] && loop == Up && jobResult.Some? ==> resumes == 1
      ensures closes <= 1 || (walked && loop == HandlesClosed)
    {
      hide Valid;
      for i := 0 to |wishes|
        invariant Valid()
      {
        Turn(wishes[i]);
      }
      Settles();
    }

    lemma Settles()
      requires Valid()
      ensures resumes <= 1 && (closes <= 1 || (walked && loop == HandlesClosed))
      ensures stage == Waiting && queue == [] ==> (resumes == 1 <==> jobPosted || fired)
      ensures stage == Waiting && queue == [] && loop == Up && jobResult.Some? ==> resumes == 1
    {
      ResumedAtMostOnce(trace);
      ResumedIff(trace);
      ClosedTwiceIff(trace);
      Reachable();
    }
  }

  lemma CompletionMeans<V>(s: State<V>)
    requires Inv(s) && Enabled(s, RunNext)
    ensures var s', item := DoStep(s, RunNext), s.queue[0];
      && s'.resumes <= 1
      && (s.completed ==>
            && s'.completed && s'.result == s.result && s'.timer == s.timer && s'.open == s.open && s'.made == s.made && s'.closes == s.closes
            && (item == Complete ==> s'.resumes == s.resumes))
      && (item == Complete ==> s'.completed && !s'.timer && !s'.open)
      && (item == Complete && !s.completed ==>
            && s.jobResult.Some? && s'.result == s.jobResult && s'.resumes == 1 && s'.made == s.made
            && s'.closes == s.closes + if s.timer then 1 else 0)
      && (item == MakeTimer && !s.completed ==>
            && s'.timer && s'.open && s'.made && !s'.completed && s'.result == s.result && s'.closes == s.closes && s'.resumes == s.resumes)
      && (item == Resume ==> s.completed && s'.resumes == 1)
  {
    StepInv(s, RunNext);
    CountsFront(s.queue);
    hide Count;
  }

  lemma TimeoutMeans<V>(s: State<V>)
    requires Inv(s) && Enabled(s, TimerFires)
    ensures var s' := DoStep(s, TimerFires);
      && !s.completed && s'.completed && s'.fired && s'.result == Some(Err(NODE_TIMEOUT)) && !s'.timer && !s'.open && s'.closes == 1
      && if s.loop == Up then s'.queue == s.queue + [Resume] && s'.resumes == 0 else s'.queue == s.queue && s'.resumes == 1
  {
    hide Count;
  }
}
