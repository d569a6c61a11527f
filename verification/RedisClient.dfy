/**
 The callbacks of a Redis client on the loop thread.

 Each callback may resume coroutines, and a resumed coroutine may drop its state and so hand its
 permit to the next command, which is then issued and may fail and resume in turn, all before the
 callback returns. `history` records the actions of `RedisCommands` in the order in which they
 happened, so everything proved there of every history holds of every such nesting.
 */
module RedisClient {
  import opened Wrappers

  import Limits = InflightLimiter
  import opened RedisCommands

  class RedisClient {
    const max: nat
    const limiter: Limits.AsyncInflightLimiter
    var loop: Loop
    var commands: seq<Command>
    ghost var history: seq<Action>

    ghost function View(): Client
      reads this, limiter
    {
      Client(limiter.View(), loop, commands)
    }

    ghost predicate Valid()
      reads this, limiter
    {
      && limiter.Valid() && limiter.maxPermits == max
      && IsHistory(NewClient(max), history)
      && Reached(NewClient(max), history) == View()
    }

    constructor (permits: nat)
      ensures Valid() && View() == NewClient(permits) && fresh(limiter)
    {
      max := permits;
      limiter := new Limits.AsyncInflightLimiter(permits);
      loop, commands, history := Up, [], [];
    }

    /** Commands other than `id` that were not waiting for a permit are as they were. */
    twostate predicate OthersUntouched(id: nat)
      reads this
    {
      && |commands| == |old(commands)|
      && forall i: nat :: i < |commands| && i != id && old(commands)[i].phase != Waiting ==> commands[i] == old(commands)[i]
    }

    /** The action the callback is about to carry out goes into the history. */
    ghost method Record(a: Action)
      requires Valid() && CanAct(View(), a)
      modifies this`history
      ensures history == old(history) + [a]
      ensures IsHistory(NewClient(max), history) && Reached(NewClient(max), history) == Act(View(), a)
      ensures ClientInv(View()) && ClientInv(Act(View(), a))
      ensures !a.Submit? ==> WorkLeft(Act(View(), a)) < WorkLeft(View())
    {
      HistoryInv(NewClient(max), history);
      HistorySnoc(NewClient(max), history, a);
      ActInv(View(), a);
      if !a.Submit? { ActWorks(View(), a); }
      history := history + [a];
    }

    /** `await_suspend`: the coroutine stays suspended exactly while the loop takes posts; otherwise it goes on with an error. */
    method Suspend() returns (id: nat)
      requires Valid()
      modifies this
      ensures Valid() && Extends(old(commands)) && id == |old(commands)| && id < |commands|
      ensures if loop == Up then commands[id].phase == Posted && commands[id].resumes == 0
              else commands[id].phase == Resumed && commands[id].resumes == 1 && commands[id].outcome == Some(Err("EventLoop not running"))
    {
      hide ClientInv, IsHistory, Reached;
      Record(Submit);
      id := |commands|;
      commands := commands + [if loop == Up then NewCommand() else Resume(Fail(NewCommand(), "EventLoop not running"))];
    }

    /** The commands there were are as they were. */
    ghost predicate Extends(before: seq<Command>)
      reads this
    {
      before <= commands
    }

    /** `Stop` has begun, or its walk closes the open timers; no command is decided by it. */
    method LoopStops()
      requires Valid() && loop != HandlesClosed
      modifies this
      ensures Valid() && loop == (if old(loop) == Up then Stopping else HandlesClosed) && |commands| == |old(commands)|
      ensures forall i :: 0 <= i < |commands| ==>
        && commands[i].phase == old(commands)[i].phase && commands[i].outcome == old(commands)[i].outcome
        && (loop == HandlesClosed ==> !commands[i].open)
    {
      hide ClientInv, IsHistory, Reached;
      if loop == Up {
        Record(StopBegins);
        loop := Stopping;
      } else {
        Record(CloseHandles);
        loop := HandlesClosed;
        var k := 0;
        var all := commands;
        commands := [];
        while k < |all|
          invariant 0 <= k <= |all| && |commands| == k && loop == HandlesClosed
          invariant forall i :: 0 <= i < k ==> commands[i] == Walk(all[i])
          invariant limiter.Valid() && limiter.View() == old(limiter.View()) && history == old(history) + [CloseHandles]
        {
          commands := commands + [Walk(all[k])];
          k := k + 1;
        }
        assert commands == seq(|all|, i requires 0 <= i < |all| => Walk(all[i]));
      }
    }

    /** `execute_on_loop`: issue now, or queue for a permit. */
    method ExecuteOnLoop(id: nat)
      requires Valid() && CanAct(View(), Execute(id))
      modifies this, limiter
      ensures Valid() && OthersUntouched(id) && old(history) <= history
      ensures if old(limiter.current) < max then commands[id].phase in {InFlight, Resumed, Gone} else commands[id].phase == Waiting && id in limiter.waiters
    {
      hide IssuedAs, ClientInv, Limits.Inv, IsHistory, Reached;
      Record(Execute(id));
      hide Act;
      var ready := limiter.current < max;
      var _ := limiter.Acquire(id);
      commands := commands[id := commands[id].(phase := if ready then Ready else Waiting)];
      if ready { var _, _ := IssueNow(id); }
    }

    /**
     `issue_command`. A command that is queued is in flight, with a timer exactly if it has a timeout;
     one that cannot be queued resumes its coroutine on the spot, with the error.
     */
    method IssueNow(id: nat) returns (issued: Issued, withTimeout: bool)
      requires Valid() && InPhase(View(), id, Ready)
      modifies this, limiter
      ensures Valid() && OthersUntouched(id) && old(history) <= history
      ensures commands[id].phase in {InFlight, Resumed, Gone}
      ensures IssuedAs(commands[id], issued, withTimeout)
      decreases WorkLeft(View())
    {
      hide ClientInv, Limits.Inv, IsHistory, Reached, IssueCommand, IssuedAs;
      issued, withTimeout := *, *;
      Record(Issue(id, issued, withTimeout));
      ReadyIssued(View(), id, issued, withTimeout);
      commands := commands[id := IssueCommand(commands[id], issued, withTimeout)];
      if issued != Queued { RunResumed(id); }
    }

    /** The coroutine runs on after its command, to its next suspension or to its end. */
    method RunResumed(id: nat)
      requires Valid() && InPhase(View(), id, Resumed)
      modifies this, limiter
      ensures Valid() && OthersUntouched(id) && old(history) <= history
      ensures commands[id] == old(commands)[id] || commands[id] == old(commands)[id].(phase := Gone)
      decreases WorkLeft(View()), 1
    {
      if * { DropState(id); }
    }

    /** The state is destroyed, and its guard with it. */
    method DropState(id: nat)
      requires Valid() && InPhase(View(), id, Resumed)
      modifies this, limiter
      ensures Valid() && OthersUntouched(id) && old(history) <= history
      ensures commands[id] == old(commands)[id].(phase := Gone)
      decreases WorkLeft(View()), 0
    {
      hide IssuedAs, ClientInv, Limits.Inv, IsHistory, Reached;
      Record(Destroy(id));
      WaitersWait(View());
      commands := commands[id := commands[id].(phase := Gone)];
      var next := GrantNext(id);
      if next.Some? { var _, _ := IssueNow(next.value); }
    }

    /** `Guard` dropped: its permit goes to the first waiter. */
    method GrantNext(id: nat) returns (next: Option<nat>)
      requires limiter.Valid()
      requires forall w :: w in limiter.waiters ==> InPhase(View(), w, Waiting) && w != id
      modifies this`commands, limiter
      ensures limiter.Valid() && View() == GiveBack(old(View()), id)
      ensures OthersUntouched(id) && (id < |commands| ==> commands[id] == old(commands)[id])
      ensures next.Some? ==> InPhase(View(), next.value, Ready) && InPhase(old(View()), next.value, Waiting) && next.value != id
    {
      next := None;
      if id in limiter.holders {
        assert forall w :: w in limiter.waiters ==> InPhase(View(), w, Waiting) && w != id;
        assert limiter.waiters != [] ==> limiter.waiters[0] in limiter.waiters;
        next := limiter.PassPermit(id);
        if next.Some? {
          commands := commands[next.value := commands[next.value].(phase := Ready)];
        }
      }
    }

    /** The reply callback, on time, late, or after the state is gone. */
    method OnReply(id: nat, reply: Result<string>)
      requires Valid() && id < |commands| && commands[id].ref == Held
      modifies this, limiter
      ensures Valid() && OthersUntouched(id) && old(history) <= history
      ensures commands[id].ref == Freed
      ensures commands[id].outcome == if old(commands)[id].completed then old(commands)[id].outcome else Some(reply)
      ensures commands[id].resumes == old(commands)[id].resumes + if old(commands)[id].completed then 0 else 1
    {
      hide IsHistory, Reached, Limits.Inv;
      Record(Action.OnReply(id, reply));
      assert IdInv(View(), id);
      hide ClientInv;
      var timely := !commands[id].completed;
      commands := commands[id := Reply(commands[id], reply)];
      if timely { RunResumed(id); }
    }

    /** The first half of the timer callback: the permit goes back, and its next holder issues its command. */
    method Expire(id: nat)
      requires Valid() && id < |commands| && commands[id].timer && commands[id].open
      modifies this, limiter
      ensures Valid() && OthersUntouched(id) && old(history) <= history && id !in limiter.holders
      ensures InPhase(View(), id, TimedOut) && commands[id].outcome == Some(Err("Request timeout"))
      ensures !commands[id].timer && commands[id].resumes == 0
    {
      hide IssuedAs, IsHistory, Reached, Limits.Inv;
      Record(Action.OnTimeout(id));
      assert IdInv(View(), id);
      WaitersWait(View());
      hide ClientInv;
      commands := commands[id := Fail(CloseTimer(commands[id].(completed := true, phase := TimedOut)), "Request timeout")];
      var next := GrantNext(id);
      if next.Some? { var _, _ := IssueNow(next.value); }
      TimedOutHoldsNothing(id);
    }

    /** The timer callback: only when the permit is gone is the coroutine resumed. */
    method OnTimeout(id: nat)
      requires Valid() && id < |commands| && commands[id].timer && commands[id].open
      modifies this, limiter
      ensures Valid() && OthersUntouched(id) && old(history) <= history
      ensures commands[id].resumes == 1 && commands[id].outcome == Some(Err("Request timeout"))
      ensures commands[id].phase in {Resumed, Gone} && !commands[id].timer
    {
      hide IsHistory, Reached, ClientInv, Limits.Inv;
      Expire(id);
      Record(ResumeTimedOut(id));
      commands := commands[id := Resume(commands[id])];
      RunResumed(id);
    }

    lemma TimedOutHoldsNothing(id: nat)
      requires Valid() && InPhase(View(), id, TimedOut)
      ensures id !in limiter.holders
    {
      HistoryInv(NewClient(max), history);
      assert IdInv(View(), id);
    }
  }
}
