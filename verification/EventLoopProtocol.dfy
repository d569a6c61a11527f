/**
 Posting callbacks to the event loop while it is being stopped.

 Any number of threads post, one call of `Stop` succeeds in its compare-and-swap (from another
 thread, or from a callback), and the loop thread drains the queue. The state change is not made
 under the queue lock, so a poster can pass the check under the lock, lose the race to the
 compare-and-swap, and still push.
 */
module EventLoopProtocol {
  import opened Wrappers

  datatype Life = Idle | Starting | Running | Stopping | Stopped

  datatype Item = Callback(id: nat) | StopRequest

  /** A call of `Post`: past the first check, past the check under the lock, pushed, or returned. */
  datatype Caller = Checked | Locked | Pushed | Accepted | Refused

  /** The call of `Stop` whose compare-and-swap succeeded. */
  datatype Stopper = NoStop | MustPush | MustSend | StopDone

  /** The call of `DoStop`: waiting for the queue lock of its own drain, draining, or returned. */
  datatype StopCall = NotCalled | WantsLock | Draining | Returned

  /**
   `local` is the queue `OnAsync` swapped out and is working off, `stopLocal` the one `DoStop`
   swapped out. `pushed` and `ran` record what went into the queue and what was run, in order, and
   `timers` are the timer handles that are open.
   */
  datatype State = State(
    life: Life,
    queue: seq<Item>,
    inDrain: bool, local: seq<Item>,
    doStop: StopCall, stopLocal: seq<Item>,
    posts: map<nat, Caller>,
    lockedBy: Option<nat>,
    stopper: Stopper,
    signalled: bool,
    looping: bool,
    exited: bool,
    inlineStop: bool,
    pushed: seq<Item>,
    ran: seq<Item>,
    timers: set<nat>)

  datatype Step =
    | Start | ThreadRuns
    | PostCheck(id: nat) | PostLock(id: nat) | PostPush(id: nat) | PostSend(id: nat)
    | StopCas | StopPush | StopSend
    | WakeUp | RunLocal | LeaveDrain
    | InlineStop | DrainForStop | RunStopLocal | FinishStop | Exit
    | OpenTimer(timer: nat) | CloseTimer(timer: nat)

  const INIT := State(Idle, [], false, [], NotCalled, [], map[], None, NoStop, false, false, false, false, [], [], {})

  predicate InState(s: State, id: nat, c: Caller) {
    id in s.posts && s.posts[id] == c
  }

  /** The loop thread is not inside `DoStop`. */
  predicate OutsideStop(s: State) {
    s.doStop == NotCalled || s.doStop == Returned
  }

  predicate Enabled(s: State, step: Step) {
    match step
    case Start => s.life == Idle
    case ThreadRuns => !s.looping && s.doStop == NotCalled && (s.life == Starting || s.life == Stopping)
    case PostCheck(id) => id !in s.posts
    case PostLock(id) => InState(s, id, Checked) && s.lockedBy.None?
    case PostPush(id) => InState(s, id, Locked) && s.lockedBy == Some(id)
    case PostSend(id) => InState(s, id, Pushed)
    case StopCas => s.life == Running || s.life == Starting
    case StopPush => s.stopper == MustPush && s.lockedBy.None?
    case StopSend => s.stopper == MustSend
    case WakeUp => s.looping && s.signalled && !s.inDrain && s.doStop == NotCalled && s.lockedBy.None?
    case RunLocal => s.inDrain && s.local != [] && OutsideStop(s)
    case LeaveDrain => s.inDrain && s.local == [] && OutsideStop(s)
    case InlineStop => s.life == Running && s.looping && s.doStop == NotCalled
    case DrainForStop => s.doStop == WantsLock && s.lockedBy.None?
    case RunStopLocal => s.doStop == Draining && s.stopLocal != []
    case FinishStop => s.doStop == Draining && s.stopLocal == []
    case Exit => s.doStop == Returned && !s.inDrain && !s.exited
    case OpenTimer(t) => s.looping && !s.exited && t !in s.timers
    case CloseTimer(t) => t in s.timers && !s.exited
  }

  function DoStep(s: State, step: Step): State
    requires Enabled(s, step)
  {
    match step
    case Start => s.(life := Starting)
    case ThreadRuns =>
      if s.life == Starting then s.(life := Running, looping := true)
      else s.(doStop := WantsLock)
    case PostCheck(id) => s.(posts := s.posts[id := if s.life == Running then Checked else Refused])
    case PostLock(id) =>
      if s.life == Running then s.(posts := s.posts[id := Locked], lockedBy := Some(id))
      else s.(posts := s.posts[id := Refused])
    case PostPush(id) =>
      s.(queue := s.queue + [Callback(id)], pushed := s.pushed + [Callback(id)],
         posts := s.posts[id := Pushed], lockedBy := None)
    case PostSend(id) => s.(posts := s.posts[id := Accepted], signalled := true)
    case StopCas => s.(life := Stopping, stopper := if s.life == Running then MustPush else StopDone)
    case StopPush => s.(queue := s.queue + [StopRequest], pushed := s.pushed + [StopRequest], stopper := MustSend)
    case StopSend => s.(stopper := StopDone, signalled := true)
    case WakeUp => s.(signalled := false, inDrain := true, local := s.queue, queue := [])
    case RunLocal =>
      s.(local := s.local[1..], ran := s.ran + [s.local[0]],
         doStop := if s.local[0].StopRequest? then WantsLock else s.doStop)
    case LeaveDrain => s.(inDrain := false)
    case InlineStop => s.(life := Stopping, stopper := StopDone, inlineStop := true, doStop := WantsLock)
    case DrainForStop => s.(doStop := Draining, stopLocal := s.queue, queue := [])
    case RunStopLocal => s.(stopLocal := s.stopLocal[1..], ran := s.ran + [s.stopLocal[0]])
    case FinishStop => s.(doStop := Returned, life := Stopped, timers := {})
    case Exit => s.(exited := true)
    case OpenTimer(t) => s.(timers := s.timers + {t})
    case CloseTimer(t) => s.(timers := s.timers - {t})
  }

  ghost predicate IsRun(s: State, steps: seq<Step>)
    decreases |steps|
  {
    steps == [] || (Enabled(s, steps[0]) && IsRun(DoStep(s, steps[0]), steps[1..]))
  }

  ghost function After(s: State, steps: seq<Step>): State
    requires IsRun(s, steps)
    decreases |steps|
  {
    if steps == [] then s else After(DoStep(s, steps[0]), steps[1..])
  }

  // ---------------------------------------------------------------------------------------
  // The invariant

  /** Everything not yet run, in the order the loop thread will get to it. */
  ghost function Pending(s: State): seq<Item> { s.stopLocal + (s.local + s.queue) }

  ghost predicate Drained(s: State) { s.doStop == Draining || s.doStop == Returned }

  /** The loop is being stopped and nobody who could still push holds the lock. */
  ghost predicate Closed(s: State) {
    s.lockedBy.None? && s.stopper != MustPush && (s.life == Stopping || s.life == Stopped)
  }

  ghost predicate LockInv(s: State) {
    && (s.lockedBy.Some? ==> InState(s, s.lockedBy.value, Locked))
    && (forall id: nat :: InState(s, id, Locked) ==> s.lockedBy == Some(id))
    && (forall id: nat :: Callback(id) in s.pushed <==> InState(s, id, Pushed) || InState(s, id, Accepted))
  }

  ghost predicate LifeInv(s: State) {
    && (s.life == Idle || s.life == Starting ==>
          s.stopper == NoStop && s.doStop == NotCalled && !s.inDrain && !s.looping && s.lockedBy.None? && s.pushed == [] && !s.inlineStop
          && forall id :: id in s.posts ==> s.posts[id] == Refused)
    && (s.life == Running ==> s.stopper == NoStop && s.looping && s.doStop == NotCalled && !s.inlineStop)
    && (s.life == Stopped <==> s.doStop == Returned)
    && (!s.looping && s.life == Stopping ==> s.pushed == [] && s.lockedBy.None? && s.stopper == StopDone && !s.inDrain)
    && (s.exited ==> s.doStop == Returned && !s.inDrain)
    && (!s.inDrain ==> s.local == [])
    && (s.doStop != Draining ==> s.stopLocal == [])
    && (Drained(s) ==> Closed(s) && s.queue == [])
    && (s.doStop == WantsLock ==> s.life == Stopping && s.stopper != MustPush)
    && (s.stopper == MustPush ==> s.life == Stopping && s.looping && s.doStop == NotCalled && !s.inlineStop)
  }

  /** What ran and what is pending make up what was pushed; in order, unless a callback stopped the loop. */
  ghost predicate Log(pushed: seq<Item>, ran: seq<Item>, pending: seq<Item>, inlineStop: bool) {
    && NoDup(pushed)
    && multiset(ran) + multiset(pending) == multiset(pushed)
    && (!inlineStop ==> ran + pending == pushed)
    && (StopRequest in pushed ==> pushed[|pushed|-1] == StopRequest)
  }

  ghost predicate StopInv(s: State) {
    && (!s.inlineStop && s.doStop != NotCalled ==> Closed(s) && Pending(s) == [])
    && (StopRequest in s.pushed ==> Closed(s) && !s.inlineStop && s.looping)
    && (StopRequest in s.pushed && s.doStop == NotCalled ==> StopRequest in Pending(s))
    && (s.life == Stopping && s.looping && s.stopper != MustPush && s.doStop == NotCalled ==> StopRequest in s.pushed)
  }

  ghost predicate Inv(s: State) {
    LockInv(s) && LifeInv(s) && StopInv(s) && Log(s.pushed, s.ran, Pending(s), s.inlineStop)
  }

  // ---------------------------------------------------------------------------------------
  // Every step keeps the invariant

  lemma PostInv(s: State, step: Step)
    requires Inv(s) && Enabled(s, step) && (step.PostCheck? || step.PostLock? || step.PostSend?)
    ensures Inv(DoStep(s, step))
  {
    hide Log;
    var s' := DoStep(s, step);
    PostLockInv(s, step);
    assert Pending(s') == Pending(s);
    hide LockInv;
  }

  lemma PostLockInv(s: State, step: Step)
    requires LockInv(s) && Enabled(s, step) && (step.PostCheck? || step.PostLock? || step.PostSend?)
    ensures LockInv(DoStep(s, step)) && DoStep(s, step).pushed == s.pushed
  {
    var s' := DoStep(s, step);
    forall id: nat ensures Callback(id) in s'.pushed <==> InState(s', id, Pushed) || InState(s', id, Accepted) {
      assert Callback(id) in s.pushed <==> InState(s, id, Pushed) || InState(s, id, Accepted);
    }
  }

  lemma PushLockInv(s: State, id: nat)
    requires LockInv(s) && Enabled(s, PostPush(id))
    ensures LockInv(DoStep(s, PostPush(id))) && Callback(id) !in s.pushed
  {
    var s' := DoStep(s, PostPush(id));
    assert InState(s, id, Locked);
    forall i: nat ensures Callback(i) in s'.pushed <==> InState(s', i, Pushed) || InState(s', i, Accepted) {
      assert Callback(i) in s.pushed <==> InState(s, i, Pushed) || InState(s, i, Accepted);
    }
  }

  lemma LogPush(pushed: seq<Item>, ran: seq<Item>, pending: seq<Item>, inlineStop: bool, item: Item)
    requires Log(pushed, ran, pending, inlineStop) && item !in pushed && StopRequest !in pushed
    ensures Log(pushed + [item], ran, pending + [item], inlineStop)
  {
    assert ran + (pending + [item]) == ran + pending + [item];
  }

  lemma PushInv(s: State, id: nat)
    requires Inv(s) && Enabled(s, PostPush(id))
    ensures Inv(DoStep(s, PostPush(id)))
  {
    var s' := DoStep(s, PostPush(id));
    PushLockInv(s, id);
    hide LockInv;
    assert Pending(s') == Pending(s) + [Callback(id)];
    LogPush(s.pushed, s.ran, Pending(s), s.inlineStop, Callback(id));
    hide Log;
  }

  lemma StopPushLockInv(s: State)
    requires LockInv(s) && Enabled(s, StopPush)
    ensures LockInv(DoStep(s, StopPush))
  {
    var s' := DoStep(s, StopPush);
    forall id: nat ensures Callback(id) in s'.pushed <==> InState(s', id, Pushed) || InState(s', id, Accepted) {
      assert Callback(id) in s.pushed <==> InState(s, id, Pushed) || InState(s, id, Accepted);
    }
    forall id: nat | InState(s', id, Locked) ensures false { assert InState(s, id, Locked); }
  }

  lemma StopPushInv(s: State)
    requires Inv(s) && Enabled(s, StopPush)
    ensures Inv(DoStep(s, StopPush))
  {
    var s' := DoStep(s, StopPush);
    StopPushLockInv(s);
    hide LockInv;
    assert Pending(s') == Pending(s) + [StopRequest];
    LogPush(s.pushed, s.ran, Pending(s), s.inlineStop, StopRequest);
    hide Log;
  }

  lemma LogRun(pushed: seq<Item>, ran: seq<Item>, item: Item, pending: seq<Item>, inlineStop: bool)
    requires Log(pushed, ran, [item] + pending, inlineStop)
    ensures Log(pushed, ran + [item], pending, inlineStop)
    ensures item in pushed && (item.StopRequest? && !inlineStop ==> pending == [])
  {
    assert ran + [item] + pending == ran + ([item] + pending);
    assert multiset([item] + pending) == multiset{item} + multiset(pending);
    assert item in multiset(pushed);
    if item.StopRequest? && !inlineStop { assert pushed[|ran|] == item; }
  }

  /** A step that takes the first pending item and runs it. */
  lemma RunsFirst(s: State, s': State, item: Item)
    requires Inv(s) && s'.posts == s.posts && s'.lockedBy == s.lockedBy
    requires s'.pushed == s.pushed && s'.ran == s.ran + [item] && s'.inlineStop == s.inlineStop
    requires Pending(s) == [item] + Pending(s')
    ensures LockInv(s') && Log(s'.pushed, s'.ran, Pending(s'), s'.inlineStop)
    ensures item in s.pushed && (item.StopRequest? && !s.inlineStop ==> Pending(s') == [])
  {
    hide Log, LifeInv, StopInv, LockInv, Pending;
    LogRun(s.pushed, s.ran, item, Pending(s'), s.inlineStop);
    PushedPostsUnchanged(s, s');
  }

  lemma RunLocalInv(s: State)
    requires Inv(s) && Enabled(s, RunLocal)
    ensures Inv(DoStep(s, RunLocal))
  {
    hide LockInv, Log;
    var s' := DoStep(s, RunLocal);
    assert Pending(s) == [s.local[0]] + Pending(s');
    RunsFirst(s, s', s.local[0]);
    hide Pending;
  }

  lemma PushedPostsUnchanged(s: State, s': State)
    requires LockInv(s) && s'.posts == s.posts && s'.lockedBy == s.lockedBy && s'.pushed == s.pushed
    ensures LockInv(s')
  {
    forall id: nat ensures Callback(id) in s'.pushed <==> InState(s', id, Pushed) || InState(s', id, Accepted) {
      assert Callback(id) in s.pushed <==> InState(s, id, Pushed) || InState(s, id, Accepted);
    }
    forall id: nat | InState(s', id, Locked) ensures s'.lockedBy == Some(id) { assert InState(s, id, Locked); }
  }

  /** A drain from inside a callback runs the queue ahead of what is left of the outer drain. */
  lemma LogSwap(pushed: seq<Item>, ran: seq<Item>, local: seq<Item>, queue: seq<Item>, inlineStop: bool)
    requires Log(pushed, ran, local + queue, inlineStop) && (inlineStop || local + queue == [])
    ensures Log(pushed, ran, queue + local, inlineStop)
  {
    assert multiset(local + queue) == multiset(queue + local);
    if local + queue == [] { assert queue + local == local + queue; }
  }

  lemma DrainForStopLogs(s: State)
    requires Inv(s) && Enabled(s, DrainForStop)
    ensures var s' := DoStep(s, DrainForStop);
      LockInv(s') && Log(s'.pushed, s'.ran, Pending(s'), s'.inlineStop) && (Pending(s) == [] ==> Pending(s') == [])
  {
    hide LockInv, Log;
    var s' := DoStep(s, DrainForStop);
    assert Pending(s) == s.local + s.queue && Pending(s') == s.queue + s.local;
    LogSwap(s.pushed, s.ran, s.local, s.queue, s.inlineStop);
    PushedPostsUnchanged(s, s');
  }

  lemma DrainForStopInv(s: State)
    requires Inv(s) && Enabled(s, DrainForStop)
    ensures Inv(DoStep(s, DrainForStop))
  {
    hide LockInv, Log, Pending;
    DrainForStopLogs(s);
  }

  lemma RunStopLocalInv(s: State)
    requires Inv(s) && Enabled(s, RunStopLocal)
    ensures Inv(DoStep(s, RunStopLocal))
  {
    hide LockInv, Log;
    var s' := DoStep(s, RunStopLocal);
    assert Pending(s) == [s.stopLocal[0]] + Pending(s');
    RunsFirst(s, s', s.stopLocal[0]);
    hide Pending;
  }

  lemma StepInv(s: State, step: Step)
    requires Inv(s) && Enabled(s, step)
    ensures Inv(DoStep(s, step))
  {
    match step
    case PostCheck(_) => PostInv(s, step);
    case PostLock(_) => PostInv(s, step);
    case PostSend(_) => PostInv(s, step);
    case PostPush(id) => PushInv(s, id);
    case StopPush => StopPushInv(s);
    case RunLocal => RunLocalInv(s);
    case DrainForStop => DrainForStopInv(s);
    case RunStopLocal => RunStopLocalInv(s);
    case InlineStop => InlineStopInv(s, step);
    case WakeUp => WakeUpInv(s);
    case LeaveDrain => LeaveDrainInv(s);
    case FinishStop => FinishStopInv(s);
    case Exit => ExitInv(s);
    case Start => StartInv(s);
    case ThreadRuns => ThreadRunsInv(s);
    case StopCas => StopCasInv(s);
    case StopSend => StopSendInv(s);
    case OpenTimer(_) => TimerInv(s, step);
    case CloseTimer(_) => TimerInv(s, step);
  }

  /** A step that leaves the calls of `Post`, the logs and the order of pending items as they are. */
  lemma SameLogs(s: State, s': State)
    requires Inv(s) && s'.posts == s.posts && s'.lockedBy == s.lockedBy
    requires s'.pushed == s.pushed && s'.ran == s.ran && s'.inlineStop == s.inlineStop
    requires s'.stopLocal == s.stopLocal && s'.local + s'.queue == s.local + s.queue
    ensures LockInv(s') && Log(s'.pushed, s'.ran, Pending(s'), s'.inlineStop) && Pending(s') == Pending(s)
  {
    hide Log, LifeInv, StopInv, LockInv;
    PushedPostsUnchanged(s, s');
  }

  lemma StartInv(s: State)
    requires Inv(s) && Enabled(s, Start)
    ensures Inv(DoStep(s, Start))
  {
    hide Log, LockInv, Pending;
    SameLogs(s, DoStep(s, Start));
  }

  lemma ThreadRunsInv(s: State)
    requires Inv(s) && Enabled(s, ThreadRuns)
    ensures Inv(DoStep(s, ThreadRuns))
  {
    hide Log, LockInv, Pending;
    NothingPending(s.pushed, s.ran, Pending(s), s.inlineStop);
    SameLogs(s, DoStep(s, ThreadRuns));
  }

  lemma StopCasInv(s: State)
    requires Inv(s) && Enabled(s, StopCas)
    ensures Inv(DoStep(s, StopCas))
  {
    hide Log, LockInv, Pending;
    SameLogs(s, DoStep(s, StopCas));
  }

  lemma StopSendInv(s: State)
    requires Inv(s) && Enabled(s, StopSend)
    ensures Inv(DoStep(s, StopSend))
  {
    hide Log, LockInv, Pending;
    SameLogs(s, DoStep(s, StopSend));
  }

  lemma WakeUpInv(s: State)
    requires Inv(s) && Enabled(s, WakeUp)
    ensures Inv(DoStep(s, WakeUp))
  {
    hide Log, LockInv, Pending;
    SameLogs(s, DoStep(s, WakeUp));
  }

  lemma LeaveDrainInv(s: State)
    requires Inv(s) && Enabled(s, LeaveDrain)
    ensures Inv(DoStep(s, LeaveDrain))
  {
    hide Log, LockInv, Pending;
    SameLogs(s, DoStep(s, LeaveDrain));
  }

  lemma FinishStopInv(s: State)
    requires Inv(s) && Enabled(s, FinishStop)
    ensures Inv(DoStep(s, FinishStop))
  {
    hide Log, LockInv, Pending;
    SameLogs(s, DoStep(s, FinishStop));
  }

  lemma ExitInv(s: State)
    requires Inv(s) && Enabled(s, Exit)
    ensures Inv(DoStep(s, Exit))
  {
    hide Log, LockInv, Pending;
    SameLogs(s, DoStep(s, Exit));
  }

  lemma TimerInv(s: State, step: Step)
    requires Inv(s) && Enabled(s, step) && (step.OpenTimer? || step.CloseTimer?)
    ensures Inv(DoStep(s, step))
  {
    hide Log, LockInv, Pending;
    SameLogs(s, DoStep(s, step));
  }

  lemma InlineStopInv(s: State, step: Step)
    requires Inv(s) && Enabled(s, step) && step in {InlineStop}
    ensures Inv(DoStep(s, step))
  {
    var s' := DoStep(s, step);
    assert Pending(s') == Pending(s);
    assert Log(s.pushed, s.ran, Pending(s), true);
    hide Log;
    PushedPostsUnchanged(s, s');
    hide LockInv;
  }

  lemma NothingPending(pushed: seq<Item>, ran: seq<Item>, pending: seq<Item>, inlineStop: bool)
    requires Log(pushed, ran, pending, inlineStop)
    ensures pushed == [] ==> pending == []
  {
    assert |multiset(ran)| + |multiset(pending)| == |multiset(pushed)|;
  }

  lemma {:induction false} RunInv(s: State, steps: seq<Step>)
    requires Inv(s) && IsRun(s, steps)
    ensures Inv(After(s, steps))
    decreases |steps|
  {
    hide Inv;
    if steps != [] {
      StepInv(s, steps[0]);
      RunInv(DoStep(s, steps[0]), steps[1..]);
    }
  }

  /**
   When the loop thread has exited, the callbacks whose `Post` was accepted have run, each of
   them exactly once, and no other has; and if `Stop` did not come from a callback, everything
   ran in the order in which it was pushed.
   */
  lemma AcceptedRunExactlyOnce(steps: seq<Step>)
    requires IsRun(INIT, steps) && After(INIT, steps).exited
    ensures var s := After(INIT, steps);
      && NoDup(s.ran)
      && (forall id: nat :: Callback(id) in s.ran <==> InState(s, id, Pushed) || InState(s, id, Accepted))
      && (!s.inlineStop ==> s.ran == s.pushed)
  {
    var s := After(INIT, steps);
    RunInv(INIT, steps);
    assert Pending(s) == [];
    SameMultiset(s.ran, s.pushed);
  }

  lemma {:induction false} RunSnoc(s: State, steps: seq<Step>, step: Step)
    requires IsRun(s, steps) && Enabled(After(s, steps), step)
    ensures IsRun(s, steps + [step]) && After(s, steps + [step]) == DoStep(After(s, steps), step)
    decreases |steps|
  {
    hide Enabled, DoStep;
    if steps != [] {
      RunSnoc(DoStep(s, steps[0]), steps[1..], step);
      assert (steps + [step])[1..] == steps[1..] + [step];
    } else {
      assert [step][1..] == [] && After(DoStep(s, step), []) == DoStep(s, step);
    }
  }

  lemma DrainedStays(s: State, step: Step)
    requires Inv(s) && Drained(s) && Enabled(s, step)
    ensures DoStep(s, step).pushed == s.pushed && Drained(DoStep(s, step))
  {
    hide Log, LockInv;
    if step.RunLocal? {
      NoSecondStop(s);
    }
    hide Pending;
  }

  /** After the stopping drain, what is left of the outer drain holds no request to stop. */
  lemma NoSecondStop(s: State)
    requires Inv(s) && Drained(s) && Enabled(s, RunLocal)
    ensures !s.local[0].StopRequest?
  {
    hide LockInv, Log;
    assert Pending(s) == [s.local[0]] + Pending(DoStep(s, RunLocal));
    RunsFirst(s, DoStep(s, RunLocal), s.local[0]);
  }

  /** Nothing is pushed once `DoStop` has drained, so nothing is accepted after the thread exits. */
  lemma {:induction false} NothingPushedAfterDrain(s: State, steps: seq<Step>)
    requires Inv(s) && Drained(s) && IsRun(s, steps)
    ensures After(s, steps).pushed == s.pushed && Drained(After(s, steps))
    decreases |steps|
  {
    hide Inv;
    if steps != [] {
      DrainedStays(s, steps[0]);
      StepInv(s, steps[0]);
      NothingPushedAfterDrain(DoStep(s, steps[0]), steps[1..]);
    }
  }

  // ---------------------------------------------------------------------------------------
  // Nobody is left waiting

  /** Somebody will still signal the loop thread. */
  ghost predicate WakeComing(s: State) {
    s.signalled || s.stopper == MustPush || s.stopper == MustSend || exists id: nat :: InState(s, id, Pushed)
  }

  /** A queued callback never depends on a wake-up that is not coming. */
  ghost predicate WakeInv(s: State) {
    s.queue != [] && s.doStop == NotCalled ==> WakeComing(s)
  }

  lemma StepWakeInv(s: State, step: Step)
    requires Inv(s) && WakeInv(s) && Enabled(s, step)
    ensures WakeInv(DoStep(s, step))
  {
    hide Log, LockInv, StopInv, Pending;
    var s' := DoStep(s, step);
    if s'.queue != [] && s'.doStop == NotCalled && !s'.signalled {
      if step.PostPush? {
        assert InState(s', step.id, Pushed);
      } else if s.stopper != MustPush && s.stopper != MustSend && s.queue != [] {
        var id: nat :| InState(s, id, Pushed);
        assert InState(s', id, Pushed);
      }
    }
  }

  lemma {:induction false} RunWakeInv(s: State, steps: seq<Step>)
    requires Inv(s) && WakeInv(s) && IsRun(s, steps)
    ensures WakeInv(After(s, steps)) && Inv(After(s, steps))
    decreases |steps|
  {
    hide Inv, WakeInv;
    if steps != [] {
      StepInv(s, steps[0]);
      StepWakeInv(s, steps[0]);
      RunWakeInv(DoStep(s, steps[0]), steps[1..]);
    }
  }

  /** A step that moves on a call or the loop thread that is already under way. */
  predicate MovesOn(step: Step) {
    match step
    case Start => false
    case PostCheck(_) => false
    case StopCas => false
    case InlineStop => false
    case OpenTimer(_) => false
    case CloseTimer(_) => false
    case _ => true
  }

  /** While a callback is pending, or a stop is under way and the thread has not exited, something can move on. */
  lemma NeverStuck(steps: seq<Step>) returns (step: Step)
    requires IsRun(INIT, steps)
    requires var s := After(INIT, steps); Pending(s) != [] || ((s.life == Stopping || s.life == Stopped) && !s.exited)
    ensures Enabled(After(INIT, steps), step) && MovesOn(step)
  {
    RunWakeInv(INIT, steps);
    step := NextStep(After(INIT, steps));
  }

  lemma NextStep(s: State) returns (step: Step)
    requires Inv(s) && WakeInv(s)
    requires Pending(s) != [] || ((s.life == Stopping || s.life == Stopped) && !s.exited)
    ensures Enabled(s, step) && MovesOn(step)
  {
    hide Log, LockInv;
    if s.doStop != NotCalled || s.inDrain || s.lockedBy.Some? {
      step := NextInside(s);
    } else if s.stopper == MustPush {
      step := StopPush;
    } else if s.stopper == MustSend {
      step := StopSend;
    } else if s.signalled && s.looping {
      step := WakeUp;
    } else if !s.looping {
      NothingPending(s.pushed, s.ran, Pending(s), s.inlineStop);
      hide Pending;
      step := ThreadRuns;
    } else {
      QueueNotEmpty(s);
      hide Inv;
      var id: nat :| InState(s, id, Pushed);
      step := PostSend(id);
    }
  }

  lemma NextInside(s: State) returns (step: Step)
    requires Inv(s) && !s.exited && (s.doStop != NotCalled || s.inDrain || s.lockedBy.Some?)
    ensures Enabled(s, step) && MovesOn(step)
  {
    hide Log, StopInv;
    if s.lockedBy.Some? {
      step := PostPush(s.lockedBy.value);
    } else if s.doStop == Draining {
      step := if s.stopLocal == [] then FinishStop else RunStopLocal;
    } else if s.doStop == WantsLock {
      step := DrainForStop;
    } else if s.inDrain {
      step := if s.local == [] then LeaveDrain else RunLocal;
    } else {
      step := Exit;
    }
  }

  lemma QueueNotEmpty(s: State)
    requires Inv(s) && !s.inDrain && s.doStop == NotCalled && s.looping
    requires Pending(s) != [] || (s.life == Stopping || s.life == Stopped)
    requires s.stopper != MustPush
    ensures s.queue != []
  {
    hide Log, LockInv;
  }

  // ---------------------------------------------------------------------------------------
  // Which posts are accepted

  /** The step was taken, and the loop was `Running` just before it if and only if `running`. */
  ghost predicate TakenWhile(steps: seq<Step>, step: Step, running: bool) {
    exists k :: TakenAt(steps, step, running, k)
  }

  ghost predicate TakenAt(steps: seq<Step>, step: Step, running: bool, k: int) {
    && 0 <= k < |steps| && steps[k] == step
    && IsRun(INIT, steps[..k]) && (After(INIT, steps[..k]).life == Running <==> running)
  }

  lemma {:induction false} RunLast(s: State, steps: seq<Step>, step: Step)
    requires IsRun(s, steps + [step])
    ensures IsRun(s, steps) && Enabled(After(s, steps), step) && After(s, steps + [step]) == DoStep(After(s, steps), step)
    decreases |steps|
  {
    hide Enabled, DoStep;
    if steps != [] {
      assert (steps + [step])[1..] == steps[1..] + [step];
      RunLast(DoStep(s, steps[0]), steps[1..], step);
    } else {
      assert [step][1..] == [] && After(DoStep(s, step), []) == DoStep(s, step);
    }
  }

  lemma TakenAtSnoc(steps: seq<Step>, last: Step, step: Step, running: bool, k: int)
    requires IsRun(INIT, steps)
    ensures TakenAt(steps + [last], step, running, k) <==>
      if k < |steps| then TakenAt(steps, step, running, k)
      else k == |steps| && step == last && (After(INIT, steps).life == Running <==> running)
  {
    var all := steps + [last];
    if 0 <= k <= |steps| { assert all[..k] == steps[..k]; }
    assert steps[..|steps|] == steps;
    hide IsRun, After;
  }

  lemma TakenSnoc(steps: seq<Step>, last: Step, step: Step, running: bool)
    requires IsRun(INIT, steps)
    ensures TakenWhile(steps + [last], step, running) <==>
      TakenWhile(steps, step, running) || (step == last && (After(INIT, steps).life == Running <==> running))
  {
    var all := steps + [last];
    assert forall k :: TakenAt(steps, step, running, k) ==> k < |steps|;
    hide IsRun, After, TakenAt;
    forall k
      ensures TakenAt(all, step, running, k) <==>
        if k < |steps| then TakenAt(steps, step, running, k)
        else k == |steps| && step == last && (After(INIT, steps).life == Running <==> running)
    {
      TakenAtSnoc(steps, last, step, running, k);
    }
    assert TakenAt(all, step, running, |steps|) ==> TakenWhile(all, step, running);
  }

  /** Where a call of `Post` stands, given whether its first and its second check have been made, while running or not. */
  ghost predicate Stands(posts: map<nat, Caller>, id: nat, firstYes: bool, firstNo: bool, secondYes: bool, secondNo: bool) {
    && (id in posts <==> firstYes || firstNo)
    && (id in posts && posts[id] != Checked && posts[id] != Refused <==> firstYes && secondYes)
    && (id in posts && posts[id] == Refused <==> firstNo || secondNo)
    && (id in posts && posts[id] == Checked ==> firstYes)
    && (secondYes || secondNo ==> id in posts)
  }

  lemma StandsSnoc(s: State, step: Step, id: nat, firstYes: bool, firstNo: bool, secondYes: bool, secondNo: bool)
    requires Enabled(s, step) && Stands(s.posts, id, firstYes, firstNo, secondYes, secondNo)
    ensures var first, second, running := step == PostCheck(id), step == PostLock(id), s.life == Running;
      Stands(DoStep(s, step).posts, id, firstYes || (first && running), firstNo || (first && !running),
             secondYes || (second && running), secondNo || (second && !running))
  {
    StandsStep(s, step, id);
    hide DoStep, Enabled;
  }

  lemma {:induction false} PostStandsAlways(steps: seq<Step>, id: nat)
    requires IsRun(INIT, steps)
    ensures Stands(After(INIT, steps).posts, id,
                   TakenWhile(steps, PostCheck(id), true), TakenWhile(steps, PostCheck(id), false),
                   TakenWhile(steps, PostLock(id), true), TakenWhile(steps, PostLock(id), false))
    decreases |steps|
  {
    if steps != [] {
      var init, last := steps[..|steps|-1], steps[|steps|-1];
      assert steps == init + [last];
      RunLast(INIT, init, last);
      hide IsRun, After, TakenWhile, DoStep, Enabled, Stands;
      PostStandsAlways(init, id);
      TakenSnoc(init, last, PostCheck(id), true);
      TakenSnoc(init, last, PostCheck(id), false);
      TakenSnoc(init, last, PostLock(id), true);
      TakenSnoc(init, last, PostLock(id), false);
      StandsSnoc(After(INIT, init), last, id,
                 TakenWhile(init, PostCheck(id), true), TakenWhile(init, PostCheck(id), false),
                 TakenWhile(init, PostLock(id), true), TakenWhile(init, PostLock(id), false));
    }
  }

  /** What one step does to one call. */
  lemma StandsStep(s: State, step: Step, id: nat)
    requires Enabled(s, step)
    ensures var before, after := s.posts, DoStep(s, step).posts;
      && (step == PostCheck(id) ==> id !in before && id in after && after[id] == if s.life == Running then Checked else Refused)
      && (step == PostLock(id) ==> InState(s, id, Checked) && id in after && after[id] == if s.life == Running then Locked else Refused)
      && (step != PostCheck(id) && step != PostLock(id) ==>
            && (id in after <==> id in before)
            && (id in after ==> after[id] == before[id] || (before[id] == Locked && after[id] == Pushed) || (before[id] == Pushed && after[id] == Accepted)))
  {
    if step.PostCheck? || step.PostLock? || step.PostPush? || step.PostSend? {
      CallStep(s, step, id);
    } else {
      assert DoStep(s, step).posts == s.posts;
    }
    hide DoStep, Enabled, InState;
  }

  lemma CallStep(s: State, step: Step, id: nat)
    requires Enabled(s, step) && (step.PostCheck? || step.PostLock? || step.PostPush? || step.PostSend?)
    ensures var before, after := s.posts, DoStep(s, step).posts;
      && (id in after <==> id in before || step.id == id)
      && (step.id != id && id in before ==> after[id] == before[id])
      && match step
         case PostCheck(i) => i !in before && after[i] == if s.life == Running then Checked else Refused
         case PostLock(i) => InState(s, i, Checked) && after[i] == if s.life == Running then Locked else Refused
         case PostPush(i) => i in before && before[i] == Locked && after[i] == Pushed
         case PostSend(i) => i in before && before[i] == Pushed && after[i] == Accepted
         case _ => true
  {
  }

  /**
   A call of `Post` that has returned was accepted if and only if the loop was running at both of
   its checks, and refused if and only if it was not at one of them.
   */
  lemma AcceptedIff(steps: seq<Step>, id: nat)
    requires IsRun(INIT, steps)
    requires var s := After(INIT, steps); InState(s, id, Accepted) || InState(s, id, Refused)
    ensures var s := After(INIT, steps);
      && (InState(s, id, Accepted) <==> TakenWhile(steps, PostCheck(id), true) && TakenWhile(steps, PostLock(id), true))
      && (InState(s, id, Refused) <==> TakenWhile(steps, PostCheck(id), false) || TakenWhile(steps, PostLock(id), false))
  {
    PostStandsAlways(steps, id);
  }

  /** While the loop runs and nobody holds the lock, a new call of `Post` can go through, and its callback is queued. */
  lemma PostCanSucceed(s: State, id: nat) returns (steps: seq<Step>)
    requires s.life == Running && s.lockedBy.None? && id !in s.posts
    ensures IsRun(s, steps)
    ensures var s' := After(s, steps);
      && InState(s', id, Accepted) && s'.queue == s.queue + [Callback(id)] && s'.signalled && s'.life == Running
  {
    steps := [PostCheck(id), PostLock(id), PostPush(id), PostSend(id)];
    var s1 := DoStep(s, steps[0]);
    var s2 := DoStep(s1, steps[1]);
    var s3 := DoStep(s2, steps[2]);
    var s4 := DoStep(s3, steps[3]);
    assert steps[1..] == [steps[1], steps[2], steps[3]] && steps[1..][1..] == [steps[2], steps[3]];
    assert steps[1..][1..][1..] == [steps[3]] && steps[1..][1..][1..][1..] == [];
    hide DoStep;
    assert IsRun(s3, [steps[3]]) && After(s3, [steps[3]]) == s4;
    assert IsRun(s2, [steps[2], steps[3]]) && After(s2, [steps[2], steps[3]]) == s4;
    assert IsRun(s1, [steps[1], steps[2], steps[3]]) && After(s1, [steps[1], steps[2], steps[3]]) == s4;
  }

  // ---------------------------------------------------------------------------------------
  // No run goes on for ever

  ghost function Calls(posts: map<nat, Caller>, c: Caller): set<nat> { set id | id in posts && posts[id] == c }

  /** Steps a call of `Post` can still cause, the wake-up and the running of its callback included. */
  function Weight(c: Caller): nat {
    match c
    case Checked => 6
    case Locked => 5
    case Pushed => 3
    case _ => 0
  }

  ghost function CallWork(posts: map<nat, Caller>): nat {
    6 * |Calls(posts, Checked)| + 5 * |Calls(posts, Locked)| + 3 * |Calls(posts, Pushed)|
  }

  lemma CallsMove(posts: map<nat, Caller>, id: nat, c: Caller, d: Caller)
    ensures |Calls(posts[id := c], d)| == |Calls(posts, d)| + (if c == d then 1 else 0) - (if id in posts && posts[id] == d then 1 else 0)
  {
    var before, after := Calls(posts, d), Calls(posts[id := c], d);
    forall i ensures i in after <==> if i == id then c == d else i in before { }
    assert id in before <==> id in posts && posts[id] == d;
    hide Calls;
    if c == d { assert after == before + {id}; } else { assert after == before - {id}; }
  }

  lemma CallWorkMoves(posts: map<nat, Caller>, id: nat, c: Caller)
    ensures CallWork(posts[id := c]) == CallWork(posts) + Weight(c) - if id in posts then Weight(posts[id]) else 0
  {
    CallsMove(posts, id, c, Checked);
    CallsMove(posts, id, c, Locked);
    CallsMove(posts, id, c, Pushed);
    hide Calls;
  }

  function StopWork(stopper: Stopper, doStop: StopCall): nat {
    (match stopper case NoStop => 6 case MustPush => 5 case MustSend => 3 case StopDone => 0)
    + (match doStop case NotCalled => 3 case WantsLock => 2 case Draining => 1 case Returned => 0)
  }

  function ThreadWork(s: State): nat {
    (if s.life == Idle then 1 else 0) + (if s.looping then 0 else 1) + (if s.exited then 0 else 1)
    + (if s.signalled then 2 else 0) + if s.inDrain then 1 else 0
  }

  /** Work under way and still to come, in steps. */
  ghost function Work(s: State): nat {
    CallWork(s.posts) + StopWork(s.stopper, s.doStop) + ThreadWork(s) + |s.queue| + |s.local| + |s.stopLocal|
  }

  /** Steps that take nothing off the work: a new post, and timers. */
  predicate IsFree(step: Step) { step.PostCheck? || step.OpenTimer? || step.CloseTimer? }

  lemma PostWorks(s: State, step: Step)
    requires Enabled(s, step) && (step.PostCheck? || step.PostLock? || step.PostPush? || step.PostSend?)
    ensures if step.PostCheck? then Work(DoStep(s, step)) <= Work(s) + 6 else Work(DoStep(s, step)) < Work(s)
  {
    hide CallWork, StopWork, InState;
    var s' := DoStep(s, step);
    var c := s'.posts[step.id];
    assert s'.posts == s.posts[step.id := c];
    CallWorkMoves(s.posts, step.id, c);
    PostMoves(s, step);
    hide Enabled, DoStep, ThreadWork;
  }

  lemma PostMoves(s: State, step: Step)
    requires Enabled(s, step) && (step.PostCheck? || step.PostLock? || step.PostPush? || step.PostSend?)
    ensures var s' := DoStep(s, step);
      && s'.stopper == s.stopper && s'.doStop == s.doStop && s'.local == s.local && s'.stopLocal == s.stopLocal
      && (if step.PostCheck? then step.id !in s.posts && Weight(s'.posts[step.id]) <= 6 && |s'.queue| == |s.queue| && ThreadWork(s') == ThreadWork(s)
          else step.id in s.posts && Weight(s'.posts[step.id]) + |s'.queue| + ThreadWork(s') < Weight(s.posts[step.id]) + |s.queue| + ThreadWork(s))
  {
  }

  lemma StepWorks(s: State, step: Step)
    requires Inv(s) && Enabled(s, step)
    ensures if step.PostCheck? then Work(DoStep(s, step)) <= Work(s) + 6 else if IsFree(step) then Work(DoStep(s, step)) == Work(s) else Work(DoStep(s, step)) < Work(s)
  {
    hide CallWork, Log, LockInv, StopInv, Pending;
    if !step.PostCheck? && !step.PostLock? && !step.PostPush? && !step.PostSend? {
      OtherWorks(s, step);
    }
    hide Inv, Work, DoStep, Drained;
    if step.PostCheck? || step.PostLock? || step.PostPush? || step.PostSend? {
      PostWorks(s, step);
    }
  }

  lemma OtherWorks(s: State, step: Step)
    requires Inv(s) && Enabled(s, step) && !step.PostCheck? && !step.PostLock? && !step.PostPush? && !step.PostSend?
    ensures if IsFree(step) then Work(DoStep(s, step)) == Work(s) else Work(DoStep(s, step)) < Work(s)
  {
    hide CallWork, Log, LockInv, StopInv, Pending;
    if step.RunLocal? {
      if Drained(s) { NoSecondStop(s); }
      hide LifeInv;
    }
  }

  ghost function NewPosts(steps: seq<Step>): nat {
    if steps == [] then 0 else (if steps[0].PostCheck? then 1 else 0) + NewPosts(steps[1..])
  }

  ghost function WorkSteps(steps: seq<Step>): nat {
    if steps == [] then 0 else (if IsFree(steps[0]) then 0 else 1) + WorkSteps(steps[1..])
  }

  lemma {:induction false} RunWorks(s: State, steps: seq<Step>)
    requires Inv(s) && IsRun(s, steps)
    ensures WorkSteps(steps) + Work(After(s, steps)) <= Work(s) + 6 * NewPosts(steps)
    decreases |steps|
  {
    hide Inv, Work, DoStep, Enabled;
    if steps != [] {
      StepInv(s, steps[0]);
      StepWorks(s, steps[0]);
      RunWorks(DoStep(s, steps[0]), steps[1..]);
    }
  }

  /**
   A run has at most twelve steps, six more for every call of `Post`, and the steps of timers. So once
   no new calls come it stops, and it can stop only with every accepted callback run and, if the
   loop was asked to stop, with the thread exited.
   */
  lemma EveryRunEnds(steps: seq<Step>)
    requires IsRun(INIT, steps)
    ensures WorkSteps(steps) <= 12 + 6 * NewPosts(steps)
    ensures var s := After(INIT, steps);
      (forall step :: MovesOn(step) ==> !Enabled(s, step)) ==>
        && Pending(s) == [] && (s.life == Stopping || s.life == Stopped ==> s.exited)
        && forall id: nat :: InState(s, id, Accepted) ==> Callback(id) in s.ran
  {
    RunWorks(INIT, steps);
    assert forall c :: Calls(map[], c) == {};
    var s := After(INIT, steps);
    if Pending(s) != [] || ((s.life == Stopping || s.life == Stopped) && !s.exited) {
      var step := NeverStuck(steps);
    } else {
      RunInv(INIT, steps);
      SameMultiset(s.ran, s.pushed);
    }
  }

  /** A loop can be started: two steps from the beginning it is running. */
  lemma LoopCanRun()
    ensures IsRun(INIT, [Start, ThreadRuns])
    ensures var s := After(INIT, [Start, ThreadRuns]); s.life == Running && s.looping && s.lockedBy.None? && s.posts == map[]
  {
    assert [Start, ThreadRuns][1..] == [ThreadRuns] && [ThreadRuns][1..] == [];
  }

  /** A stop under way can be carried through to the exit of the thread. */
  lemma {:induction false} StopCanFinish(s: State) returns (steps: seq<Step>)
    requires Inv(s) && WakeInv(s) && (s.life == Stopping || s.life == Stopped)
    ensures IsRun(s, steps) && After(s, steps).exited
    decreases Work(s)
  {
    hide Inv, WakeInv, Work, DoStep, Enabled;
    if s.exited {
      steps := [];
    } else {
      var step := NextStep(s);
      StepInv(s, step);
      StepWakeInv(s, step);
      StepWorks(s, step);
      StaysStopped(s, step);
      var rest := StopCanFinish(DoStep(s, step));
      steps := [step] + rest;
      assert steps[1..] == rest;
    }
  }

  lemma StaysStopped(s: State, step: Step)
    requires Enabled(s, step) && MovesOn(step) && (s.life == Stopping || s.life == Stopped)
    ensures DoStep(s, step).life == Stopping || DoStep(s, step).life == Stopped
  {
    hide InState, OutsideStop, Enabled;
  }

  /** A running loop can be stopped, from another thread or from a callback, and its thread then exits. */
  lemma RunningCanStop(s: State, inside: bool) returns (steps: seq<Step>)
    requires Inv(s) && WakeInv(s) && s.life == Running
    ensures steps != [] && steps[0] == (if inside then InlineStop else StopCas)
    ensures IsRun(s, steps) && After(s, steps).exited
  {
    hide LockInv, Log, StopInv;
    var step := if inside then InlineStop else StopCas;
    assert Enabled(s, step);
    assert DoStep(s, step).life == Stopping;
    hide Inv, WakeInv, DoStep, Enabled;
    StepInv(s, step);
    StepWakeInv(s, step);
    var rest := StopCanFinish(DoStep(s, step));
    steps := [step] + rest;
    assert steps[1..] == rest;
  }
}
