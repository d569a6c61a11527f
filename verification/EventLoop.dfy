/**
 The event loop object. Each method is what one thread does in one atomic piece: a
 compare-and-swap, a locked section, or one callback.

 `trace` records the pieces in the order in which they happened; `Valid` says that they are a run of
 `EventLoopProtocol`, so what is proved there of every run holds of the object.
 */
module EventLoop {
  import opened Wrappers
  import opened EventLoopProtocol

  class EventLoop {
    var life: Life
    var queue: seq<Item>
    var signalled: bool
    // The loop thread: the queue it swapped out, a `DoStop` under way, its timers, and its exit.
    var inDrain: bool
    var local: seq<Item>
    var doStop: StopCall
    var stopLocal: seq<Item>
    var looping: bool
    var exited: bool
    var timers: set<nat>
    // The calls of `Post`, the holder of `queue_mutex_`, the call of `Stop`, and the two logs.
    var posts: map<nat, Caller>
    var lockedBy: Option<nat>
    var stopper: Stopper
    var inlineStop: bool
    var pushed: seq<Item>
    var ran: seq<Item>
    ghost var trace: seq<Step>

    function View(): State
      reads this
    {
      State(life, queue, inDrain, local, doStop, stopLocal, posts, lockedBy, stopper, signalled,
            looping, exited, inlineStop, pushed, ran, timers)
    }

    /** The object got where it is by a run of the protocol. */
    ghost predicate Valid()
      reads this
    {
      IsRun(INIT, trace) && After(INIT, trace) == View()
    }

    constructor ()
      ensures Valid() && trace == [] && life == Idle
    {
      life, queue, signalled, inDrain, local, doStop := Idle, [], false, false, [], NotCalled;
      stopLocal, looping, exited, posts, lockedBy := [], false, false, map[], None;
      stopper, inlineStop, pushed, ran, timers, trace := NoStop, false, [], [], {}, [];
    }

    /** What every run keeps, in the object's own terms. */
    lemma Reachable()
      requires Valid()
      ensures Inv(View())
      ensures multiset(ran) + multiset(stopLocal + (local + queue)) == multiset(pushed) && NoDup(pushed)
    {
      RunInv(INIT, trace);
    }

    /** One piece carried out: it goes on the trace. */
    ghost method Record(before: State, step: Step)
      requires IsRun(INIT, trace) && After(INIT, trace) == before
      requires Enabled(before, step) && View() == DoStep(before, step)
      modifies this`trace
      ensures Valid() && trace == old(trace) + [step]
    {
      RunSnoc(INIT, trace, step);
      trace := trace + [step];
    }

    /** `Start`, once. */
    method StartLoop()
      requires Valid() && life == Idle
      modifies this`life, this`trace
      ensures Valid() && trace == old(trace) + [Start]
      ensures life == Starting
    {
      hide IsRun, After, Inv;
      ghost var before := View();
      life := Starting;
      Record(before, Start);
    }

    /** The new thread's own compare-and-swap, which loses against an early `Stop`. */
    method ThreadBegins()
      requires Valid() && Enabled(View(), ThreadRuns)
      modifies this`life, this`looping, this`doStop, this`trace
      ensures Valid() && trace == old(trace) + [ThreadRuns]
      ensures if old(life) == Starting then life == Running && looping && doStop == old(doStop)
        else doStop == WantsLock && life == old(life) && !looping
    {
      hide IsRun, After, Inv;
      ghost var before := View();
      if life == Starting {
        life, looping := Running, true;
      } else {
        doStop := WantsLock;
      }
      Record(before, ThreadRuns);
    }

    /** `Post` before the lock. */
    method BeginPost(id: nat) returns (goOn: bool)
      requires Valid() && id !in posts
      modifies this`posts, this`trace
      ensures Valid() && trace == old(trace) + [PostCheck(id)]
      ensures goOn <==> life == Running
      ensures posts == old(posts)[id := if goOn then Checked else Refused]
    {
      hide IsRun, After, Inv;
      ghost var before := View();
      goOn := life == Running;
      posts := posts[id := if goOn then Checked else Refused];
      Record(before, PostCheck(id));
    }

    /**
     `Post` taking the lock and looking again. If it goes on, the stopping drain has not taken the
     queue, and cannot before the push; if not, nothing of the call is ever pushed.
     */
    method CheckUnderLock(id: nat) returns (goOn: bool)
      requires Valid() && Enabled(View(), PostLock(id))
      modifies this`posts, this`lockedBy, this`trace
      ensures Valid() && trace == old(trace) + [PostLock(id)]
      ensures goOn <==> life == Running
      ensures posts == old(posts)[id := if goOn then Locked else Refused] && lockedBy == if goOn then Some(id) else None
      ensures goOn ==> lockedBy == Some(id) && (doStop == NotCalled || doStop == WantsLock) && !Enabled(View(), DrainForStop)
      ensures !goOn ==> InState(View(), id, Refused) && Callback(id) !in pushed && life != Running
    {
      hide IsRun, After, Inv;
      ghost var before := View();
      goOn := life == Running;
      if goOn { lockedBy := Some(id); }
      posts := posts[id := if goOn then Locked else Refused];
      Record(before, PostLock(id));
      if goOn { LockedBeforeDrain(); } else { RefusedNotPushed(id); }
    }

    /** A refused call of `Post` has nothing in the log. */
    lemma RefusedNotPushed(id: nat)
      requires Valid() && InState(View(), id, Refused)
      ensures Callback(id) !in pushed
    {
      RunInv(INIT, trace);
    }

    /** While a poster holds the lock, the stopping drain has not begun. */
    lemma LockedBeforeDrain()
      requires Valid()
      ensures lockedBy.Some? ==> doStop == NotCalled || doStop == WantsLock
    {
      RunInv(INIT, trace);
    }

    /** The push, and the release of the lock. */
    method Push(id: nat)
      requires Valid() && Enabled(View(), PostPush(id))
      modifies this`queue, this`pushed, this`posts, this`lockedBy, this`trace
      ensures Valid() && trace == old(trace) + [PostPush(id)]
      ensures queue == old(queue) + [Callback(id)] && pushed == old(pushed) + [Callback(id)]
      ensures posts == old(posts)[id := Pushed] && lockedBy == None
      ensures queue == old(queue) + [Callback(id)] && lockedBy == None
    {
      hide IsRun, After, Inv;
      ghost var before := View();
      queue, pushed := queue + [Callback(id)], pushed + [Callback(id)];
      posts, lockedBy := posts[id := Pushed], None;
      Record(before, PostPush(id));
    }

    /** `uv_async_send`, after which `Post` returns true. */
    method Signal(id: nat)
      requires Valid() && Enabled(View(), PostSend(id))
      modifies this`signalled, this`posts, this`trace
      ensures Valid() && trace == old(trace) + [PostSend(id)]
      ensures signalled && posts == old(posts)[id := Accepted]
    {
      hide IsRun, After, Inv;
      ghost var before := View();
      signalled := true;
      posts := posts[id := Accepted];
      Record(before, PostSend(id));
    }

    /** The successful compare-and-swap of `Stop` on another thread. */
    method BeginStop()
      requires Valid() && Enabled(View(), StopCas)
      modifies this`life, this`stopper, this`trace
      ensures Valid() && trace == old(trace) + [StopCas]
      ensures life == Stopping && stopper == if old(life) == Running then MustPush else StopDone
    {
      hide IsRun, After, Inv;
      ghost var before := View();
      stopper := if life == Running then MustPush else StopDone;
      life := Stopping;
      Record(before, StopCas);
    }

    /** The same on the loop thread, in whatever kind of callback, which goes on to call `DoStop` itself. */
    method BeginStopInside()
      requires Valid() && Enabled(View(), InlineStop)
      modifies this`life, this`stopper, this`inlineStop, this`doStop, this`trace
      ensures Valid() && trace == old(trace) + [InlineStop]
      ensures life == Stopping && stopper == StopDone && doStop == WantsLock && inlineStop
    {
      hide IsRun, After, Inv;
      ghost var before := View();
      life, stopper, inlineStop, doStop := Stopping, StopDone, true, WantsLock;
      Record(before, InlineStop);
    }

    /** `Stop` queueing the shutdown for the loop thread. */
    method QueueStop()
      requires Valid() && Enabled(View(), StopPush)
      modifies this`queue, this`pushed, this`stopper, this`trace
      ensures Valid() && trace == old(trace) + [StopPush]
      ensures queue == old(queue) + [StopRequest] && pushed == old(pushed) + [StopRequest] && stopper == MustSend
    {
      hide IsRun, After, Inv;
      ghost var before := View();
      queue, pushed, stopper := queue + [StopRequest], pushed + [StopRequest], MustSend;
      Record(before, StopPush);
    }

    /** And waking it. */
    method SignalStop()
      requires Valid() && Enabled(View(), StopSend)
      modifies this`stopper, this`signalled, this`trace
      ensures Valid() && trace == old(trace) + [StopSend]
      ensures signalled && stopper == StopDone
    {
      hide IsRun, After, Inv;
      ghost var before := View();
      stopper, signalled := StopDone, true;
      Record(before, StopSend);
    }

    /** `OnAsync`: swap the queue out under the lock. */
    method SwapQueue()
      requires Valid() && Enabled(View(), WakeUp)
      modifies this`signalled, this`inDrain, this`local, this`queue, this`trace
      ensures Valid() && trace == old(trace) + [WakeUp]
      ensures local == old(queue) && queue == [] && inDrain && !signalled
    {
      hide IsRun, After, Inv;
      ghost var before := View();
      signalled, inDrain := false, true;
      local, queue := queue, [];
      Record(before, WakeUp);
    }

    /** The front of the swapped-out queue is run, for the first time; what it calls are pieces of their own. */
    method RunFront()
      requires Valid() && Enabled(View(), RunLocal)
      modifies this`local, this`ran, this`doStop, this`trace
      ensures Valid() && trace == old(trace) + [RunLocal]
      ensures local == old(local)[1..] && doStop == if old(local)[0].StopRequest? then WantsLock else old(doStop)
      ensures old(local)[0] !in old(ran) && ran == old(ran) + [old(local)[0]]
    {
      hide IsRun, After, Inv;
      ghost var before := View();
      FrontIsNew();
      var item := local[0];
      local, ran := local[1..], ran + [item];
      if item == StopRequest { doStop := WantsLock; }
      Record(before, RunLocal);
    }

    /** What is pending has not been run. */
    lemma FrontIsNew()
      requires Valid()
      ensures local != [] ==> local[0] !in ran
      ensures stopLocal != [] ==> stopLocal[0] !in ran
    {
      Reachable();
      var pending := stopLocal + (local + queue);
      hide Valid, Inv, Pending;
      if local != [] {
        assert local[0] == pending[|stopLocal|];
        NotYetRun(pushed, ran, pending, local[0]);
      }
      if stopLocal != [] {
        assert stopLocal[0] == pending[0];
        NotYetRun(pushed, ran, pending, stopLocal[0]);
      }
    }

    /** The drain loop finds its queue empty. */
    method EndDrain()
      requires Valid() && Enabled(View(), LeaveDrain)
      modifies this`inDrain, this`trace
      ensures Valid() && trace == old(trace) + [LeaveDrain]
      ensures !inDrain && local == []
    {
      hide IsRun, After, Inv;
      ghost var before := View();
      inDrain := false;
      Record(before, LeaveDrain);
    }

    /** `DoStop` taking the queue. */
    method SwapForStop()
      requires Valid() && Enabled(View(), DrainForStop)
      modifies this`doStop, this`stopLocal, this`queue, this`trace
      ensures Valid() && trace == old(trace) + [DrainForStop]
      ensures stopLocal == old(queue) && queue == [] && doStop == Draining
      ensures stopLocal == old(queue) && queue == [] && doStop == Draining && ran == old(ran) && local == old(local)
    {
      hide IsRun, After, Inv;
      ghost var before := View();
      doStop, stopLocal, queue := Draining, queue, [];
      Record(before, DrainForStop);
    }

    method RunStopFront()
      requires Valid() && Enabled(View(), RunStopLocal)
      modifies this`stopLocal, this`ran, this`trace
      ensures Valid() && trace == old(trace) + [RunStopLocal]
      ensures stopLocal == old(stopLocal)[1..]
      ensures old(stopLocal)[0] !in old(ran) && ran == old(ran) + [old(stopLocal)[0]] && stopLocal == old(stopLocal)[1..]
    {
      hide IsRun, After, Inv;
      ghost var before := View();
      FrontIsNew();
      stopLocal, ran := stopLocal[1..], ran + [stopLocal[0]];
      Record(before, RunStopLocal);
    }

    /** The rest of `DoStop`: every open timer is closed, and the loop counts as stopped. */
    method EndStop()
      requires Valid() && Enabled(View(), FinishStop)
      modifies this`doStop, this`life, this`timers, this`trace
      ensures Valid() && trace == old(trace) + [FinishStop]
      ensures life == Stopped && doStop == Returned && timers == {} && queue == [] && stopLocal == []
      ensures ran == old(ran) && local == old(local) && posts == old(posts) && pushed == old(pushed)
    {
      hide IsRun, After, Inv;
      ghost var before := View();
      NothingQueuedAtEnd();
      doStop, life, timers := Returned, Stopped, {};
      Record(before, FinishStop);
    }

    lemma NothingQueuedAtEnd()
      requires Valid() && (doStop == Draining || doStop == Returned)
      ensures queue == []
    {
      RunInv(INIT, trace);
    }

    /**
     `DoStop` from start to end: everything still in the queue is run, in order, ahead of what
     the outer drain has left; then every open timer is closed, and only then is the loop `Stopped`.
     */
    method RunDoStop()
      requires Valid() && Enabled(View(), DrainForStop)
      modifies this`doStop, this`stopLocal, this`queue, this`ran, this`life, this`timers, this`trace
      ensures Valid() && old(trace) <= trace
      ensures life == Stopped && doStop == Returned && queue == [] && stopLocal == [] && timers == {}
      ensures ran == old(ran) + old(queue) && local == old(local) && pushed == old(pushed) && posts == old(posts)
    {
      hide Valid;
      SwapForStop();
      ghost var all := stopLocal;
      while stopLocal != []
        invariant Valid() && old(trace) <= trace
        invariant doStop == Draining && ran + stopLocal == old(ran) + all
        invariant local == old(local) && pushed == old(pushed) && posts == old(posts) && queue == []
        decreases |stopLocal|
      {
        RunStopFront();
      }
      EndStop();
    }

    /** A callback starts a timer. */
    method MakeTimer(t: nat)
      requires Valid() && looping && !exited && t !in timers
      modifies this`timers, this`trace
      ensures Valid() && trace == old(trace) + [OpenTimer(t)]
      ensures timers == old(timers) + {t}
    {
      hide IsRun, After, Inv;
      ghost var before := View();
      timers := timers + {t};
      Record(before, OpenTimer(t));
    }

    /** A timer's owner closes it. */
    method DropTimer(t: nat)
      requires Valid() && t in timers && !exited
      modifies this`timers, this`trace
      ensures Valid() && trace == old(trace) + [CloseTimer(t)]
      ensures timers == old(timers) - {t}
    {
      hide IsRun, After, Inv;
      ghost var before := View();
      timers := timers - {t};
      Record(before, CloseTimer(t));
    }

    /** The thread ends: what was accepted has run, each callback once, and in order unless a callback stopped the loop. */
    method LeaveThread()
      requires Valid() && Enabled(View(), Exit)
      modifies this`exited, this`trace
      ensures Valid() && trace == old(trace) + [Exit]
      ensures exited
      ensures NoDup(ran) && (!inlineStop ==> ran == pushed)
      ensures forall id: nat :: id in posts && posts[id] == Accepted ==> Callback(id) in ran
    {
      hide IsRun, After, Inv;
      ghost var before := View();
      exited := true;
      Record(before, Exit);
      ExactlyOnce();
    }

    lemma ExactlyOnce()
      requires Valid() && exited
      ensures NoDup(ran) && (!inlineStop ==> ran == pushed)
      ensures forall id: nat :: Callback(id) in ran <==> InState(View(), id, Pushed) || InState(View(), id, Accepted)
      ensures forall id: nat :: id in posts && posts[id] == Accepted ==> Callback(id) in ran
    {
      AcceptedRunExactlyOnce(trace);
      forall id: nat | id in posts && posts[id] == Accepted ensures Callback(id) in ran { assert InState(View(), id, Accepted); }
    }

    /** One piece of one thread, if it can happen now. */
    method Turn(wish: Step)
      requires Valid()
      modifies this
      ensures Valid() && trace == if Enabled(old(View()), wish) then old(trace) + [wish] else old(trace)
    {
      hide Valid;
      if !Enabled(View(), wish) { return; }
      match wish
      case Start => StartLoop();
      case ThreadRuns => ThreadBegins();
      case PostCheck(id) => var _ := BeginPost(id);
      case PostLock(id) => var _ := CheckUnderLock(id);
      case PostPush(id) => Push(id);
      case PostSend(id) => Signal(id);
      case StopCas => BeginStop();
      case StopPush => QueueStop();
      case StopSend => SignalStop();
      case WakeUp => SwapQueue();
      case RunLocal => RunFront();
      case LeaveDrain => EndDrain();
      case InlineStop => BeginStopInside();
      case DrainForStop => SwapForStop();
      case RunStopLocal => RunStopFront();
      case FinishStop => EndStop();
      case Exit => LeaveThread();
      case OpenTimer(t) => MakeTimer(t);
      case CloseTimer(t) => DropTimer(t);
    }

    /**
     Any number of threads doing `turns` pieces in any order: once the loop thread has exited, every
     accepted callback has run, once; and a call of `Post` is accepted exactly if the loop was running
     at both of its checks.
     */
    method Interleave(turns: nat)
      requires Valid()
      modifies this
      ensures Valid() && old(trace) <= trace
      ensures exited ==> NoDup(ran) && (!inlineStop ==> ran == pushed)
      ensures exited ==> forall id: nat :: id in posts && posts[id] == Accepted ==> Callback(id) in ran
      ensures forall id: nat :: id in posts && (posts[id] == Accepted || posts[id] == Refused) ==>
        (posts[id] == Accepted <==> TakenWhile(trace, PostCheck(id), true) && TakenWhile(trace, PostLock(id), true))
    {
      hide Valid, Enabled;
      for i := 0 to turns
        invariant Valid() && old(trace) <= trace
      {
        var wish: Step := *;
        Turn(wish);
      }
      if exited { ExactlyOnce(); }
      PostsDecided();
    }

    /** A call of `Post` returned true if and only if it found the loop running twice. */
    lemma PostsDecided()
      requires Valid()
      ensures forall id: nat :: id in posts && (posts[id] == Accepted || posts[id] == Refused) ==>
        (posts[id] == Accepted <==> TakenWhile(trace, PostCheck(id), true) && TakenWhile(trace, PostLock(id), true))
    {
      forall id: nat | id in posts && (posts[id] == Accepted || posts[id] == Refused)
        ensures posts[id] == Accepted <==> TakenWhile(trace, PostCheck(id), true) && TakenWhile(trace, PostLock(id), true)
      {
        AcceptedIff(trace, id);
      }
    }
  }

  lemma NotYetRun(pushed: seq<Item>, ran: seq<Item>, pending: seq<Item>, x: Item)
    requires NoDup(pushed) && multiset(ran) + multiset(pending) == multiset(pushed) && x in pending
    ensures x !in ran
  {
    OnceEach(pushed, x);
    assert x in multiset(pending);
    assert x in ran <==> x in multiset(ran);
  }
}
