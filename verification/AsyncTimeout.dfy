/**
 `AsyncWithTimeout`: a coroutine waits for a task or for its deadline, whichever comes first.

 Everything happens on the loop thread. The task may end while `await_suspend` is still starting
 it. The loop may be stopped at any time: from then on posts are refused, and a little later the
 walk over the loop's handles closes every open timer, this one included, without it firing.
 */
module AsyncTimeout {
  import opened Wrappers
  import opened Timeouts

  datatype Stage = Fresh | Checked | Starting | Waiting | NotSuspended

  /** The loop accepts posts, or is being stopped, or has closed its handles. */
  datatype Loop = Up | Stopping | HandlesClosed

  datatype Event<V> = TaskEnded(result: Result<V>) | TimerFired

  /**
   `timer` is the pointer in the shared state and `open` whether its handle is open; `made`, `walked`
   and `closes` record that a timer was made, that the stop's walk closed it, and how often
   `uv_close` was called on it. `posted` counts resumptions in the loop's queue; `events` lists what
   ended the wait or came too late, in order.
   */
  datatype State<V> = State(
    stage: Stage, loop: Loop,
    done: bool, result: Option<Result<V>>, timer: bool, suspendReturned: bool, needsDirectResume: bool, late: nat,
    posted: nat, resumes: nat,
    open: bool, made: bool, walked: bool, closes: nat, events: seq<Event<V>>)

  datatype Step<V> =
    | ReadyCheck(expired: bool)
    | SuspendCheck(expired: bool)
    | TaskEnds(ended: Result<V>)
    | EndSuspend(deadline: bool)
    | TimerFires
    | Deliver
    | StopBegins
    | CloseHandles

  function Start<V>(): State<V> {
    State(Fresh, Up, false, None, false, false, false, 0, 0, 0, false, false, false, 0, [])
  }

  predicate HasEnded<V>(s: State<V>) {
    exists k :: 0 <= k < |s.events| && s.events[k].TaskEnded?
  }

  predicate Enabled<V>(s: State<V>, step: Step<V>) {
    match step
    case ReadyCheck(_) => s.stage == Fresh
    case SuspendCheck(_) => s.stage == Checked
    case TaskEnds(_) => (s.stage == Starting || s.stage == Waiting) && !HasEnded(s)
    case EndSuspend(_) => s.stage == Starting
    case TimerFires => s.stage == Waiting && s.open
    case Deliver => s.stage == Waiting && s.posted > 0
    case StopBegins => s.loop == Up
    case CloseHandles => s.loop == Stopping
  }

  function CancelTimer<V>(s: State<V>): State<V> {
    if s.timer then s.(timer := false, open := false, closes := s.closes + 1) else s
  }

  function MakeTimer<V>(s: State<V>): State<V> { s.(timer := true, open := true, made := true) }

  function Decide<V>(s: State<V>, r: Result<V>): State<V> { s.(done := true, result := Some(r)) }

  function Fired<V>(s: State<V>): State<V> {
    s.(events := s.events + [TimerFired], open := false, closes := s.closes + 1)
  }

  /** On the loop thread a refused post is made good by resuming directly. */
  function PostOrResume<V>(s: State<V>): State<V> {
    if s.loop == Up then s.(posted := s.posted + 1) else s.(resumes := s.resumes + 1)
  }

  /** The runner hands the resumption to the loop, or else carries it out or leaves it to `await_suspend`. */
  function Hand<V>(s: State<V>): State<V> {
    if s.loop == Up then s.(needsDirectResume := false, posted := s.posted + 1)
    else if s.suspendReturned then s.(needsDirectResume := true, resumes := s.resumes + 1)
    else s.(needsDirectResume := true)
  }

  function DoStep<V>(s: State<V>, step: Step<V>): State<V>
    requires Enabled(s, step)
  {
    match step
    case ReadyCheck(expired) =>
      if expired then s.(stage := NotSuspended, result := Some(Err(EXPIRED)), resumes := s.resumes + 1)
      else s.(stage := Checked)
    case SuspendCheck(expired) =>
      if expired then
        s.(stage := NotSuspended, done := true, result := Some(Err(EXPIRED_BEFORE_START)), resumes := s.resumes + 1)
      else s.(stage := Starting)
    case TaskEnds(ended) =>
      var s := s.(events := s.events + [TaskEnded(ended)]);
      if s.done then s.(late := s.late + 1)
      else Hand(CancelTimer(Decide(s, ended)))
    case EndSuspend(deadline) =>
      var s := if deadline && !s.done then MakeTimer(s) else s;
      if s.needsDirectResume then s.(suspendReturned := true, stage := NotSuspended, resumes := s.resumes + 1)
      else s.(suspendReturned := true, stage := Waiting)
    case TimerFires =>
      var s := Fired(s);
      if s.done then s
      else
        PostOrResume(Decide(s.(timer := false), Err(NODE_TIMEOUT)))
    case Deliver => s.(posted := s.posted - 1, resumes := s.resumes + 1)
    case StopBegins => s.(loop := Stopping)
    case CloseHandles =>
      var s := s.(loop := HandlesClosed);
      if s.open then s.(open := false, walked := true, closes := s.closes + 1) else s
  }

  ghost predicate IsRun<V>(s: State<V>, steps: seq<Step<V>>)
    decreases |steps|
  {
    steps == [] || (Enabled(s, steps[0]) && IsRun(DoStep(s, steps[0]), steps[1..]))
  }

  ghost function After<V>(s: State<V>, steps: seq<Step<V>>): State<V>
    requires IsRun(s, steps)
    decreases |steps|
  {
    if steps == [] then s else After(DoStep(s, steps[0]), steps[1..])
  }

  function Outcome<V>(e: Event<V>): Result<V> {
    match e
    case TaskEnded(r) => r
    case TimerFired => Err(NODE_TIMEOUT)
  }

  /** The resumption is owed exactly once: delivered, in the queue, or due when `await_suspend` returns. */
  ghost predicate ResumeInv<V>(s: State<V>) {
    && s.resumes + s.posted + (if s.stage == Starting && s.needsDirectResume then 1 else 0)
       == (if s.done || s.stage == NotSuspended then 1 else 0)
    && (s.needsDirectResume ==> s.done)
    && (s.stage == Fresh || s.stage == Checked || s.stage == Starting ==> s.resumes == 0)
    && (s.suspendReturned <==> s.stage == Waiting || (s.stage == NotSuspended && s.events != []))
  }

  /** A timer whose pointer is still there has been closed at most by the walk, and any other just once more. */
  ghost predicate TimerInv<V>(s: State<V>) {
    && (s.timer ==> s.made && !s.done && (s.open <==> !s.walked))
    && (s.open ==> s.timer) && (s.made ==> s.stage == Waiting) && (s.walked ==> s.made && s.loop == HandlesClosed)
    && (s.made && !s.timer ==> s.events != [])
    && s.closes == (if s.made && !s.timer then 1 else 0) + (if s.walked then 1 else 0)
    && (s.walked && s.events != [] ==> s.events[0].TaskEnded?)
  }

  ghost predicate EventInv<V>(s: State<V>) {
    && |s.events| <= 2
    && (s.events != [] ==> s.done && s.result == Some(Outcome(s.events[0])))
    && (s.events == [] ==> s.late == 0 && (s.stage != NotSuspended ==> !s.done && s.result == None))
    && (s.events != [] ==> s.late == |s.events| - 1 && (s.events[0].TaskEnded? ==> |s.events| == 1))
    && (|s.events| == 2 ==> s.events[1].TaskEnded?)
    && (s.stage == NotSuspended ==> s.result.Some?)
    && (s.stage == Fresh || s.stage == Checked ==> s.events == [])
    && (s.stage != Waiting && s.events != [] ==> s.events[0].TaskEnded?)
  }

  ghost predicate Inv<V>(s: State<V>) { ResumeInv(s) && TimerInv(s) && EventInv(s) }

  lemma TaskEndsInv<V>(s: State<V>, ended: Result<V>)
    requires Inv(s) && Enabled(s, TaskEnds(ended))
    ensures Inv(DoStep(s, TaskEnds(ended)))
  {
    if s.events != [] { assert s.events[0].TimerFired? && |s.events| == 1; }
  }

  lemma StepInv<V>(s: State<V>, step: Step<V>)
    requires Inv(s) && Enabled(s, step)
    ensures Inv(DoStep(s, step))
  {
    if step.TaskEnds? { TaskEndsInv(s, step.ended); }
  }

  lemma {:induction false} RunInv<V>(s: State<V>, steps: seq<Step<V>>)
    requires Inv(s) && IsRun(s, steps)
    ensures Inv(After(s, steps))
    decreases |steps|
  {
    hide Inv;
    if steps != [] {
      StepInv(s, steps[0]);
      RunInv(DoStep(s, steps[0]), steps[1..]);
    }
  }

  lemma {:induction false} RunSnoc<V>(s: State<V>, steps: seq<Step<V>>, step: Step<V>)
    requires IsRun(s, steps) && Enabled(After(s, steps), step)
    ensures IsRun(s, steps + [step]) && After(s, steps + [step]) == DoStep(After(s, steps), step)
    decreases |steps|
  {
    hide Enabled, DoStep;
    if steps != [] {
      RunSnoc(DoStep(s, steps[0]), steps[1..], step);
      assert (steps + [step])[1..] == steps[1..] + [step];
    } else {
      assert [step][1..] == [] && After(DoStep(s, step), []) == DoStep(s, step);
    }
  }

  lemma Reached<V>(steps: seq<Step<V>>)
    requires IsRun(Start<V>(), steps)
    ensures Inv(After(Start<V>(), steps))
  {
    assert Inv(Start<V>());
    hide Inv;
    RunInv(Start<V>(), steps);
  }

  /**
   Once the task has ended or the timer has fired, the waiter has been resumed, or is about to be,
   exactly once with what happened first; a task that ended after the timer was counted as late,
   once; and a timer that was made has been closed, once by this wait and once more if the stop's
   walk had closed it before.
   */
  ghost predicate Settled<V>(s: State<V>) {
    && s.resumes + s.posted <= 1
    && (s.events != [] && (s.stage == Waiting || s.stage == NotSuspended) ==>
          && s.resumes + s.posted == 1
          && s.result == Some(Outcome(s.events[0]))
          && !s.timer && !s.open
          && s.closes == (if s.made then 1 else 0) + (if s.walked then 1 else 0)
          && s.late == (if s.events[0].TimerFired? && HasEnded(s) then 1 else 0))
  }

  lemma ResumedExactlyOnce<V>(steps: seq<Step<V>>)
    requires IsRun(Start<V>(), steps)
    ensures Settled(After(Start<V>(), steps))
  {
    Reached(steps);
    var s := After(Start<V>(), steps);
    hide IsRun, After;
    if |s.events| == 2 { assert s.events[1].TaskEnded?; }
  }

  /**
   When a timer is closed twice: exactly when the stop's walk closed it during the wait, before its
   deadline, and the task ended afterwards. In every other run it is closed at most once.
   */
  lemma ClosedTwiceIff<V>(steps: seq<Step<V>>)
    requires IsRun(Start<V>(), steps)
    ensures var s := After(Start<V>(), steps);
      && s.closes <= 2
      && (s.closes == 2 <==> s.walked && s.events != [])
      && (s.loop != HandlesClosed ==> s.closes <= 1)
  {
    Reached(steps);
    hide IsRun, After, ResumeInv;
  }

  /** Such a run: the loop is stopped while the wait has a timer, and the task ends in what is left of the drain. */
  lemma ClosedTwice() returns (steps: seq<Step<int>>)
    ensures IsRun(Start<int>(), steps) && After(Start<int>(), steps).closes == 2
  {
    var s1 := DoStep(Start<int>(), ReadyCheck(false));
    var s2 := DoStep(s1, SuspendCheck(false));
    var s3 := DoStep(s2, EndSuspend(true));
    var s4 := DoStep(s3, StopBegins);
    var s5 := DoStep(s4, CloseHandles);
    var s6 := DoStep(s5, TaskEnds(Ok(1)));
    assert s6.closes == 2;
    hide DoStep, Enabled;
    steps := [];
    assert IsRun(Start<int>(), steps) && After(Start<int>(), steps) == Start<int>();
    RunSnoc(Start<int>(), [], ReadyCheck(false));
    RunSnoc(Start<int>(), [] + [ReadyCheck(false)], SuspendCheck(false));
    steps := [] + [ReadyCheck(false)] + [SuspendCheck(false)];
    RunSnoc(Start<int>(), steps, EndSuspend(true));
    RunSnoc(Start<int>(), steps + [EndSuspend(true)], StopBegins);
    steps := steps + [EndSuspend(true)] + [StopBegins];
    RunSnoc(Start<int>(), steps, CloseHandles);
    RunSnoc(Start<int>(), steps + [CloseHandles], TaskEnds(Ok(1)));
    steps := steps + [CloseHandles] + [TaskEnds(Ok(1))];
  }

  /**
   A suspended waiter that has not been resumed has its resumption in the queue, or its task has not
   ended; and then its timer is running, unless it has no deadline or the stop closed the timer.
   */
  lemma NotForgotten<V>(steps: seq<Step<V>>)
    requires IsRun(Start<V>(), steps)
    ensures var s := After(Start<V>(), steps);
      s.stage == Waiting && s.resumes == 0 ==>
        s.posted == 1 || (!HasEnded(s) && !s.done && (s.open || !s.made || s.walked))
  {
    Reached(steps);
    hide IsRun, After;
  }

  /** The end of a task: too late, only counted; in time, decisive, with no timer left and one resumption on its way. */
  lemma TaskEndsMeans<V>(s: State<V>, ended: Result<V>)
    requires Inv(s) && Enabled(s, TaskEnds(ended))
    ensures var s' := DoStep(s, TaskEnds(ended));
      && (s.done ==> s'.late == s.late + 1 && s'.result == s.result && s'.resumes == s.resumes && s'.posted == s.posted)
      && (!s.done ==>
            && s'.done && s'.result == Some(ended) && s'.late == 0 && !s'.timer && !s'.open
            && s'.closes == s.closes + (if s.timer then 1 else 0)
            && if s.loop == Up then s'.posted == 1 && s'.resumes == 0 && !s'.needsDirectResume
               else s'.posted == 0 && s'.needsDirectResume && s'.resumes == if s.stage == Waiting then 1 else 0)
      && s'.resumes + s'.posted + (if s'.stage == Starting && s'.needsDirectResume then 1 else 0) == 1
  {
    TaskEndsInv(s, ended);
  }

  /** A timer is made only for a wait that goes on; the coroutine stays suspended unless its resumption is still owed. */
  lemma EndSuspendMeans<V>(s: State<V>, deadline: bool)
    requires Inv(s) && Enabled(s, EndSuspend(deadline))
    ensures var s' := DoStep(s, EndSuspend(deadline));
      && (s'.timer <==> deadline && s'.events == []) && s'.open == s'.made == s'.timer
      && (s'.stage == Waiting <==> !s.needsDirectResume)
      && (s'.stage != Waiting ==> s'.stage == NotSuspended && s'.resumes == 1 && s'.posted == 0 && s'.events != [])
      && (s'.stage == Waiting ==> s'.resumes == 0 && s'.posted == |s'.events|)
  {
  }

  /** The timer fires on an undecided wait only, is closed for the first time, and one resumption is on its way. */
  lemma TimerFiresMeans<V>(s: State<V>)
    requires Inv(s) && Enabled(s, TimerFires)
    ensures var s' := DoStep(s, TimerFires);
      && !s.done && s'.done && s'.result == Some(Err(NODE_TIMEOUT)) && !s'.timer && !s'.open && s'.closes == 1
      && if s.loop == Up then s'.posted == 1 && s'.resumes == 0 else s'.posted == 0 && s'.resumes == 1
  {
  }

  /** What the waiter reads is decided by the first event and never changes. */
  lemma ResultStays<V>(s: State<V>, step: Step<V>)
    requires Inv(s) && Enabled(s, step) && s.result.Some?
    ensures DoStep(s, step).result == s.result
  {
    hide ResumeInv;
  }

  /** The awaitable's shared `State` and its loop; `trace` is the run that brought it here. */
  class SharedState<V(==)> {
    var stage: Stage
    var loop: Loop
    var done: bool
    var result: Option<Result<V>>
    var timer: bool
    var suspendReturned: bool
    var needsDirectResume: bool
    var late: nat
    // Resumptions queued and carried out, the timer's handle, and what has happened.
    var posted: nat
    var resumes: nat
    var open: bool
    var made: bool
    var walked: bool
    var closes: nat
    var events: seq<Event<V>>
    ghost var trace: seq<Step<V>>

    ghost function View(): State<V>
      reads this
    {
      State(stage, loop, done, result, timer, suspendReturned, needsDirectResume, late,
            posted, resumes, open, made, walked, closes, events)
    }

    ghost predicate Valid()
      reads this
    {
      IsRun(Start<V>(), trace) && After(Start<V>(), trace) == View()
    }

    constructor ()
      ensures Valid() && trace == [] && stage == Fresh && loop == Up && events == []
    {
      stage, loop, done, result, timer, suspendReturned, needsDirectResume := Fresh, Up, false, None, false, false, false;
      late, posted, resumes, open, made, walked, closes, events, trace := 0, 0, 0, false, false, false, 0, [], [];
    }

    lemma Reachable()
      requires Valid()
      ensures Inv(View())
    {
      Reached(trace);
    }

    ghost method Record(before: State<V>, step: Step<V>)
      requires IsRun(Start<V>(), trace) && After(Start<V>(), trace) == before
      requires Enabled(before, step) && View() == DoStep(before, step)
      modifies this`trace
      ensures Valid() && trace == old(trace) + [step]
    {
      RunSnoc(Start<V>(), trace, step);
      trace := trace + [step];
    }

    /** `await_ready`, and the timeout error that `await_resume` then throws. */
    method AwaitReady(expired: bool)
      requires Valid() && stage == Fresh
      modifies this`stage, this`result, this`resumes, this`trace
      ensures Valid() && trace == old(trace) + [ReadyCheck(expired)]
      ensures if expired then stage == NotSuspended && result == Some(Err(EXPIRED)) && resumes == 1
        else stage == Checked && unchanged(this`result, this`resumes)
    {
      Reachable();
      hide IsRun, After;
      ghost var before := View();
      if expired {
        stage, result, resumes := NotSuspended, Some(Err(EXPIRED)), resumes + 1;
      } else {
        stage := Checked;
      }
      Record(before, ReadyCheck(expired));
    }

    /** `await_suspend` up to the start of the runner. */
    method BeginSuspend(expired: bool)
      requires Valid() && stage == Checked
      modifies this`stage, this`done, this`result, this`resumes, this`trace
      ensures Valid() && trace == old(trace) + [SuspendCheck(expired)]
      ensures if expired then stage == NotSuspended && done && result == Some(Err(EXPIRED_BEFORE_START)) && resumes == 1
        else stage == Starting && unchanged(this`done, this`result, this`resumes)
    {
      Reachable();
      hide IsRun, After;
      ghost var before := View();
      if expired {
        stage, done, result, resumes := NotSuspended, true, Some(Err(EXPIRED_BEFORE_START)), resumes + 1;
      } else {
        stage := Starting;
      }
      Record(before, SuspendCheck(expired));
    }

    method StopTimer()
      modifies this`timer, this`open, this`closes
      ensures View() == CancelTimer(old(View()))
    {
      if timer { timer, open, closes := false, false, closes + 1; }
    }

    method HandOver()
      modifies this`needsDirectResume, this`posted, this`resumes
      ensures View() == Hand(old(View()))
    {
      needsDirectResume := true;
      if loop == Up {
        posted, needsDirectResume := posted + 1, false;
      } else if suspendReturned {
        resumes := resumes + 1;
      }
    }

    /**
     The runner after its `co_await`: the task returned or threw. Too late, it is only counted. In
     time, its outcome is the result, no timer is left, and one resumption is on its way: queued,
     carried out, or, if `await_suspend` is still running, left for its end.
     */
    method TaskCompletes(ended: Result<V>)
      requires Valid() && Enabled(View(), TaskEnds(ended))
      modifies this`events, this`late, this`done, this`result, this`timer, this`open, this`closes, this`needsDirectResume, this`posted, this`resumes, this`trace
      ensures Valid() && trace == old(trace) + [TaskEnds(ended)]
      ensures events == old(events) + [TaskEnded(ended)]
      ensures old(done) ==> late == old(late) + 1 && unchanged(this`done, this`result, this`resumes, this`posted)
      ensures !old(done) ==> done && result == Some(ended) && late == 0 && !timer && !open && closes == old(closes) + if old(timer) then 1 else 0
      ensures !old(done) ==>
        if loop == Up then posted == 1 && resumes == 0 && !needsDirectResume
        else posted == 0 && needsDirectResume && resumes == if stage == Waiting then 1 else 0
      ensures resumes + posted + (if stage == Starting && needsDirectResume then 1 else 0) == 1
    {
      Reachable();
      TaskEndsMeans(View(), ended);
      hide IsRun, After, Inv, DoStep, Enabled;
      ghost var before := View();
      Complete(ended);
      Record(before, TaskEnds(ended));
    }

    method Complete(ended: Result<V>)
      requires Enabled(View(), TaskEnds(ended))
      modifies this`events, this`late, this`done, this`result, this`timer, this`open, this`closes, this`needsDirectResume, this`posted, this`resumes
      ensures View() == DoStep(old(View()), TaskEnds(ended))
    {
      hide HasEnded, Hand, CancelTimer;
      events := events + [TaskEnded(ended)];
      if done {
        late := late + 1;
      } else {
        SetResult(ended);
        StopTimer();
        HandOver();
      }
    }

    method SetResult(r: Result<V>)
      modifies this`done, this`result
      ensures View() == Decide(old(View()), r)
    {
      done, result := true, Some(r);
    }

    method ResumeWaiter()
      modifies this`posted, this`resumes
      ensures View() == PostOrResume(old(View()))
    {
      if loop == Up { posted := posted + 1; } else { resumes := resumes + 1; }
    }

    /**
     The rest of `await_suspend`. A timer is made only for a wait that goes on; the coroutine stays
     suspended unless its resumption is still owed, and is then resumed by not suspending.
     */
    method EndSuspending(deadline: bool) returns (suspended: bool)
      requires Valid() && stage == Starting
      modifies this`timer, this`open, this`made, this`suspendReturned, this`stage, this`resumes, this`trace
      ensures Valid() && trace == old(trace) + [EndSuspend(deadline)]
      ensures (timer <==> deadline && events == []) && open == made == timer && suspendReturned
      ensures suspended <==> stage == Waiting
      ensures suspended <==> !needsDirectResume
      ensures !suspended ==> stage == NotSuspended && resumes == 1 && posted == 0 && events != []
      ensures suspended ==> resumes == 0 && posted == |events|
    {
      Reachable();
      EndSuspendMeans(View(), deadline);
      ghost var before := View();
      hide IsRun, After, Inv;
      ReturnFromSuspend(deadline);
      suspended := stage == Waiting;
      hide DoStep;
      Record(before, EndSuspend(deadline));
    }

    method StartTimer()
      modifies this`timer, this`open, this`made
      ensures View() == MakeTimer(old(View()))
    {
      timer, open, made := true, true, true;
    }

    method ReturnFromSuspend(deadline: bool)
      requires stage == Starting
      modifies this`timer, this`open, this`made, this`suspendReturned, this`stage, this`resumes
      ensures View() == DoStep(old(View()), EndSuspend(deadline))
    {
      hide MakeTimer, Enabled;
      if deadline && !done { StartTimer(); }
      suspendReturned := true;
      if needsDirectResume {
        stage, resumes := NotSuspended, resumes + 1;
      } else {
        stage := Waiting;
      }
    }

    /** The timer callback: the wait was undecided, the timer is closed for the first time, and one resumption is on its way. */
    method OnTimeout()
      requires Valid() && Enabled(View(), TimerFires)
      modifies this`events, this`open, this`closes, this`timer, this`done, this`result, this`posted, this`resumes, this`trace
      ensures Valid() && trace == old(trace) + [TimerFires]
      ensures !old(done) && done && events == old(events) + [TimerFired] && result == Some(Err(NODE_TIMEOUT)) && !timer && !open && closes == 1
      ensures if loop == Up then posted == 1 && resumes == 0 else posted == 0 && resumes == 1
    {
      Reachable();
      TimerFiresMeans(View());
      hide IsRun, After, Inv, DoStep, Enabled;
      ghost var before := View();
      Expire();
      Record(before, TimerFires);
    }

    method CloseFired()
      modifies this`events, this`open, this`closes
      ensures View() == Fired(old(View()))
    {
      events, open, closes := events + [TimerFired], false, closes + 1;
    }

    method Expire()
      requires Enabled(View(), TimerFires)
      modifies this`events, this`open, this`closes, this`timer, this`done, this`result, this`posted, this`resumes
      ensures View() == DoStep(old(View()), TimerFires)
    {
      hide HasEnded, PostOrResume, Fired, Decide, Enabled;
      CloseFired();
      if !done {
        timer := false;
        SetResult(Err(NODE_TIMEOUT));
        ResumeWaiter();
      }
    }

    /** The queued resumption runs: the first and only one. */
    method RunPosted()
      requires Valid() && Enabled(View(), Deliver)
      modifies this`posted, this`resumes, this`trace
      ensures Valid() && trace == old(trace) + [Deliver]
      ensures old(resumes) == 0 && resumes == 1 && posted == 0 && events != []
    {
      hide IsRun, After;
      Reachable();
      ghost var before := View();
      posted, resumes := posted - 1, resumes + 1;
      Record(before, Deliver);
    }

    /** `Stop` has begun, or its walk reaches this wait's timer. */
    method LoopStops()
      requires Valid() && loop != HandlesClosed
      modifies this`loop, this`open, this`walked, this`closes, this`trace
      ensures Valid() && trace == old(trace) + [if old(loop) == Up then StopBegins else CloseHandles]
      ensures old(loop) == Up ==> loop == Stopping && unchanged(this`open, this`walked, this`closes)
      ensures old(loop) == Stopping ==>
        loop == HandlesClosed && !open && (walked <==> timer) && closes == old(closes) + if old(open) then 1 else 0
    {
      hide IsRun, After;
      Reachable();
      ghost var before := View();
      if loop == Up {
        loop := Stopping;
        Record(before, StopBegins);
      } else {
        loop := HandlesClosed;
        if open { open, walked, closes := false, true, closes + 1; }
        Record(before, CloseHandles);
      }
    }

    /** What happens next, if it can. */
    method Turn(wish: Step<V>)
      requires Valid()
      modifies this
      ensures Valid() && old(trace) <= trace
    {
      hide Valid;
      match wish
      case ReadyCheck(expired) => if stage == Fresh { AwaitReady(expired); }
      case SuspendCheck(expired) => if stage == Checked { BeginSuspend(expired); }
      case TaskEnds(ended) =>
        if (stage == Starting || stage == Waiting) && (forall k :: 0 <= k < |events| ==> !events[k].TaskEnded?) {
          TaskCompletes(ended);
        }
      case EndSuspend(deadline) => if stage == Starting { var _ := EndSuspending(deadline); }
      case TimerFires => if stage == Waiting && open { OnTimeout(); }
      case Deliver => if stage == Waiting && posted > 0 { RunPosted(); }
      case StopBegins => if loop == Up { LoopStops(); }
      case CloseHandles => if loop == Stopping { LoopStops(); }
    }

    /**
     The life of one wait: `turns` things happening in any order. However it goes, the waiter is
     resumed at most once; and once anything has ended the wait and what is queued has run, exactly
     once, with the result of what came first.
     */
    method Interleave(wishes: seq<Step<V>>)
      requires Valid() && trace == []
      modifies this
      ensures Valid() && resumes <= 1
      ensures events != [] && stage != Starting && posted == 0 ==> resumes == 1 && result == Some(Outcome(events[0]))
      ensures closes <= 1 || (walked && loop == HandlesClosed)
    {
      hide Valid;
      for i := 0 to |wishes|
        invariant Valid()
      {
        Turn(wishes[i]);
      }
      Settles();
    }

    lemma Settles()
      requires Valid()
      ensures resumes <= 1 && (closes <= 1 || (walked && loop == HandlesClosed))
      ensures events != [] && stage != Starting && posted == 0 ==> resumes == 1 && result == Some(Outcome(events[0]))
    {
      ResumedExactlyOnce(trace);
      Reachable();
    }
  }
}
