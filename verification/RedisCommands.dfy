/**
 Redis commands in flight: permit, issue, and the race between reply and timeout.

 All of it happens on the loop thread. The permit is acquired by the posted `execute_on_loop`,
 handed back when the command times out or else when its state is destroyed; hiredis calls the
 reply callback once for every command it accepted, however late. The loop may be stopped at any
 time: from then on posts are refused, and a little later the walk over its handles closes every
 open timer without it firing.
 */
module RedisCommands {
  import opened Wrappers
  import opened InflightLimiter

  /** `TimedOut` is the moment inside `OnTimeout` between giving the permit back and resuming. */
  datatype Phase = Posted | Waiting | Ready | InFlight | TimedOut | Resumed | Gone

  /** The control block handed to hiredis. */
  datatype CallbackRef = NoRef | Held | Freed

  /** The loop accepts posts, or is being stopped, or has closed its handles. */
  datatype Loop = Up | Stopping | HandlesClosed

  /**
   `timer` is the pointer in the command's state and `open` whether its handle is open; `made`,
   `walked` and `closes` record that a timer was made, that the stop's walk closed it, and how often
   `uv_close` was called on it.
   */
  datatype Command = Command(
    phase: Phase, completed: bool, timer: bool, ref: CallbackRef,
    outcome: Option<Result<string>>,
    resumes: nat, refFrees: nat, open: bool, made: bool, walked: bool, closes: nat)

  datatype Client = Client(limiter: Limiter, loop: Loop, commands: seq<Command>)

  datatype Issued = NoConnection | Rejected(error: string) | Queued

  datatype Action =
    | Submit
    | Execute(id: nat)
    | Issue(id: nat, issued: Issued, withTimeout: bool)
    | OnReply(id: nat, reply: Result<string>)
    | OnTimeout(id: nat)
    | ResumeTimedOut(id: nat)
    | Destroy(id: nat)
    | StopBegins
    | CloseHandles

  function NewClient(max: nat): Client { Client(Init(max), Up, []) }

  predicate InPhase(c: Client, id: nat, phase: Phase) {
    id < |c.commands| && c.commands[id].phase == phase
  }

  predicate CanAct(c: Client, a: Action) {
    match a
    case Submit => true
    case Execute(id) => InPhase(c, id, Posted) && id !in c.limiter.asked
    case Issue(id, _, _) => InPhase(c, id, Ready)
    case OnReply(id, _) => id < |c.commands| && c.commands[id].ref == Held
    case OnTimeout(id) => id < |c.commands| && c.commands[id].timer && c.commands[id].open
    case ResumeTimedOut(id) => InPhase(c, id, TimedOut)
    case Destroy(id) => InPhase(c, id, Resumed)
    case StopBegins => c.loop == Up
    case CloseHandles => c.loop == Stopping
  }

  function Resume(c: Command): Command { c.(phase := Resumed, resumes := c.resumes + 1) }

  function CloseTimer(c: Command): Command {
    if c.timer then c.(timer := false, open := false, closes := c.closes + 1) else c
  }

  /** The stop's walk over the handles. */
  function Walk(c: Command): Command {
    if c.open then c.(open := false, walked := true, closes := c.closes + 1) else c
  }

  function NewCommand(): Command { Command(Posted, false, false, NoRef, None, 0, 0, false, false, false, 0) }

  function FreeRef(c: Command): Command { c.(ref := Freed, refFrees := c.refFrees + 1) }

  function Fail(c: Command, error: string): Command { c.(outcome := Some(Err(error))) }

  /** The permit of `id`, if it has one, goes to the first waiter, whose command is then ready. */
  function GiveBack(c: Client, id: nat): Client {
    if id !in c.limiter.holders then c
    else
      var limiter := DoStep(c.limiter, Release(id));
      if c.limiter.waiters != [] && c.limiter.waiters[0] < |c.commands| then
        var w := c.limiter.waiters[0];
        c.(limiter := limiter, commands := c.commands[w := c.commands[w].(phase := Ready)])
      else c.(limiter := limiter)
  }

  function IssueCommand(cmd: Command, issued: Issued, withTimeout: bool): Command {
    if issued == NoConnection then Resume(Fail(cmd, "Connection closed while waiting for permit"))
    else
      var timed := if withTimeout then cmd.(timer := true, open := true, made := true) else cmd;
      var held := timed.(ref := Held);
      match issued
      case Rejected(error) => Resume(Fail(FreeRef(CloseTimer(held)), error))
      case _ => held.(phase := InFlight)
  }

  function Reply(cmd: Command, reply: Result<string>): Command {
    if cmd.phase == Gone || cmd.completed then FreeRef(cmd)
    else Resume(FreeRef(CloseTimer(cmd.(completed := true, outcome := Some(reply)))))
  }

  function Act(c: Client, a: Action): Client
    requires CanAct(c, a)
  {
    match a
    case Submit =>
      c.(commands := c.commands + [if c.loop == Up then NewCommand() else Resume(Fail(NewCommand(), "EventLoop not running"))])
    case Execute(id) =>
      var phase := if c.limiter.current < c.limiter.max then Ready else Waiting;
      c.(limiter := DoStep(c.limiter, Acquire(id)), commands := c.commands[id := c.commands[id].(phase := phase)])
    case Issue(id, issued, withTimeout) =>
      c.(commands := c.commands[id := IssueCommand(c.commands[id], issued, withTimeout)])
    case OnReply(id, reply) =>
      c.(commands := c.commands[id := Reply(c.commands[id], reply)])
    case OnTimeout(id) =>
      if c.commands[id].completed then c
      else
        var cmd := Fail(CloseTimer(c.commands[id].(completed := true, phase := TimedOut)), "Request timeout");
        GiveBack(c.(commands := c.commands[id := cmd]), id)
    case ResumeTimedOut(id) =>
      c.(commands := c.commands[id := Resume(c.commands[id])])
    case Destroy(id) =>
      GiveBack(c.(commands := c.commands[id := c.commands[id].(phase := Gone)]), id)
    case StopBegins => c.(loop := Stopping)
    case CloseHandles =>
      c.(loop := HandlesClosed, commands := seq(|c.commands|, i requires 0 <= i < |c.commands| => Walk(c.commands[i])))
  }

  ghost predicate IsHistory(c: Client, actions: seq<Action>)
    decreases |actions|
  {
    actions == [] || (CanAct(c, actions[0]) && IsHistory(Act(c, actions[0]), actions[1..]))
  }

  ghost function Reached(c: Client, actions: seq<Action>): Client
    requires IsHistory(c, actions)
    decreases |actions|
  {
    if actions == [] then c else Reached(Act(c, actions[0]), actions[1..])
  }

  // ---------------------------------------------------------------------------------------
  // The invariant

  /** What a command looks like in each phase, given its standing with the limiter. */
  ghost predicate CommandInv(c: Command, closed: bool, holds: bool, waits: bool, asked: bool) {
    && c.refFrees == (if c.ref == Freed then 1 else 0)
    && (c.timer ==> c.phase == InFlight && c.made && (c.open <==> !c.walked))
    && (c.open ==> c.timer) && (c.walked ==> c.made && closed)
    && (c.made && !c.timer ==> c.outcome.Some?)
    && c.closes == (if c.made && !c.timer then 1 else 0) + (if c.walked then 1 else 0)
    && (holds || waits || c.ref != NoRef ==> asked)
    && (waits <==> c.phase == Waiting)
    && (c.phase == Ready || c.phase == InFlight ==> holds && !waits)
    && (holds ==> c.phase == Ready || c.phase == InFlight || c.phase == Resumed)
    && c.resumes == (if c.phase == Resumed || c.phase == Gone then 1 else 0)
    && (c.outcome.Some? <==> c.phase == TimedOut || c.phase == Resumed || c.phase == Gone)
    && (c.completed ==> c.outcome.Some?)
    && (c.ref == Held ==> c.phase == InFlight || c.completed)
    && (c.phase == InFlight ==> c.ref == Held && !c.completed)
    && (c.phase == Posted ==> !asked)
    && (c.phase == Posted || c.phase == Waiting || c.phase == Ready ==> c.ref == NoRef && !c.made)
  }

  ghost predicate IdInv(c: Client, id: nat)
    requires id < |c.commands|
  {
    CommandInv(c.commands[id], c.loop == HandlesClosed, id in c.limiter.holders, id in c.limiter.waiters, id in c.limiter.asked)
  }

  ghost predicate ClientInv(c: Client) {
    && Inv(c.limiter)
    && (forall id: nat :: id in c.limiter.asked ==> id < |c.commands|)
    && (forall id: nat :: id < |c.commands| ==> IdInv(c, id))
  }

  /** One command changes and the limiter does not. */
  lemma ChangeOne(c: Client, id: nat, cmd: Command)
    requires ClientInv(c) && id < |c.commands|
    requires CommandInv(cmd, c.loop == HandlesClosed, id in c.limiter.holders, id in c.limiter.waiters, id in c.limiter.asked)
    ensures ClientInv(c.(commands := c.commands[id := cmd]))
  {
    hide CommandInv;
    var c' := c.(commands := c.commands[id := cmd]);
    forall i: nat | i < |c'.commands| ensures IdInv(c', i) { assert IdInv(c, i); }
  }

  lemma SubmitInv(c: Client)
    requires ClientInv(c)
    ensures ClientInv(Act(c, Submit))
  {
    var c' := Act(c, Submit);
    var last := |c.commands|;
    HoldersAreAsked(c.limiter);
    assert last !in c.limiter.asked;
    assert last !in c.limiter.waiters;
    assert IdInv(c', last);
    hide CommandInv;
    forall i: nat | i < |c'.commands| ensures IdInv(c', i) {
      if i < last { assert IdInv(c, i); }
    }
  }

  lemma HoldersAreAsked(l: Limiter)
    requires Inv(l)
    ensures forall id :: id in l.holders ==> id in l.asked
    ensures forall id :: id in l.waiters ==> id in l.asked
  {
    forall id | id in l.holders || id in l.waiters ensures id in l.asked { assert id in l.granted + l.waiters; }
  }

  lemma ExecuteInv(c: Client, id: nat)
    requires ClientInv(c) && CanAct(c, Execute(id))
    ensures ClientInv(Act(c, Execute(id)))
  {
    var l' := DoStep(c.limiter, Acquire(id));
    var c' := Act(c, Execute(id));
    StepInv(c.limiter, Acquire(id));
    assert IdInv(c, id);
    HoldersAreAsked(c.limiter);
    StartsWaiting(c.commands[id], c.loop == HandlesClosed, id in l'.holders);
    hide CommandInv, Inv;
    forall i: nat | i < |c'.commands| ensures IdInv(c', i) {
      assert IdInv(c, i);
    }
  }

  lemma StartsWaiting(cmd: Command, closed: bool, served: bool)
    requires CommandInv(cmd, closed, false, false, false) && cmd.phase == Posted
    ensures CommandInv(cmd.(phase := if served then Ready else Waiting), closed, served, !served, true)
  {
  }

  lemma StopsWaiting(cmd: Command, closed: bool)
    requires CommandInv(cmd, closed, false, true, true)
    ensures CommandInv(cmd.(phase := Ready), closed, true, false, true)
  {
  }

  /** Giving a permit back moves one holder out and at most one waiter in. */
  lemma GiveBackInv(c: Client, id: nat, cmd: Command)
    requires ClientInv(c) && id < |c.commands|
    requires id !in c.limiter.waiters
    requires CommandInv(cmd, c.loop == HandlesClosed, false, false, id in c.limiter.asked)
    ensures ClientInv(GiveBack(c.(commands := c.commands[id := cmd]), id))
  {
    hide CommandInv;
    if id !in c.limiter.holders {
      ChangeOne(c, id, cmd);
    } else if c.limiter.waiters == [] {
      var c' := GiveBack(c.(commands := c.commands[id := cmd]), id);
      HoldersAreAsked(c.limiter);
      StepInv(c.limiter, Release(id));
      hide Inv;
      forall i: nat | i < |c'.commands| ensures IdInv(c', i) { assert IdInv(c, i); }
    } else {
      HandOverInv(c, id, cmd);
    }
  }

  lemma HandOverInv(c: Client, id: nat, cmd: Command)
    requires ClientInv(c) && id < |c.commands| && id in c.limiter.holders
    requires id !in c.limiter.waiters && c.limiter.waiters != []
    requires CommandInv(cmd, c.loop == HandlesClosed, false, false, id in c.limiter.asked)
    ensures ClientInv(GiveBack(c.(commands := c.commands[id := cmd]), id))
  {
    hide CommandInv;
    var l := c.limiter;
    var w := l.waiters[0];
    var l' := DoStep(l, Release(id));
    HoldersAreAsked(l);
    assert w in l.waiters;
    StepInv(l, Release(id));
    WaiterIsNew(l, w);
    OneWaiterOut(l);
    hide Inv;
    assert forall i :: i in l'.holders <==> i == w || (i in l.holders && i != id);
    assert forall i :: i in l'.waiters <==> i in l.waiters && i != w;
    assert IdInv(c, w);
    StopsWaiting(c.commands[w], c.loop == HandlesClosed);
    var c' := GiveBack(c.(commands := c.commands[id := cmd]), id);
    assert c'.commands == c.commands[id := cmd][w := c.commands[w].(phase := Ready)];
    hide DoStep;
    forall i: nat | i < |c'.commands| ensures IdInv(c', i) { assert IdInv(c, i); }
  }

  lemma OneWaiterOut(l: Limiter)
    requires Inv(l) && l.waiters != []
    ensures forall i :: i in l.waiters[1..] <==> i in l.waiters && i != l.waiters[0]
  {
    forall k | 1 <= k < |l.waiters| ensures l.waiters[k] != l.waiters[0] {
      assert l.asked[|l.granted| + k] == l.waiters[k] && l.asked[|l.granted|] == l.waiters[0];
    }
  }

  lemma IssueKeeps(cmd: Command, closed: bool, issued: Issued, withTimeout: bool)
    requires CommandInv(cmd, closed, true, false, true) && cmd.phase == Ready
    ensures CommandInv(IssueCommand(cmd, issued, withTimeout), closed, true, false, true)
  {
  }

  /**
   What issuing a permitted command comes to: in flight, with a timer exactly if it has a timeout; or
   resumed with the error, its timer closed and its record freed if it had got that far.
   */
  lemma IssueMeans(cmd: Command, closed: bool, issued: Issued, withTimeout: bool)
    requires CommandInv(cmd, closed, true, false, true) && cmd.phase == Ready
    ensures var c := IssueCommand(cmd, issued, withTimeout);
      match issued
      case Queued => c.phase == InFlight && c.ref == Held && c.timer == c.open == c.made == withTimeout && c.outcome == None && c.resumes == 0
      case NoConnection =>
        && c.phase == Resumed && c.outcome == Some(Err("Connection closed while waiting for permit")) && c.resumes == 1
        && c.ref == NoRef && !c.made && !c.open && c.closes == 0
      case Rejected(error) =>
        && c.phase == Resumed && c.outcome == Some(Err(error)) && c.resumes == 1
        && c.ref == Freed && c.made == withTimeout && !c.timer && !c.open && c.closes == if withTimeout then 1 else 0
  {
  }

  /** What becomes of a permitted command with each outcome of issuing it, later events apart. */
  predicate IssuedAs(cmd: Command, issued: Issued, withTimeout: bool) {
    match issued
    case Queued => cmd.phase == InFlight && cmd.outcome == None && cmd.ref == Held && cmd.timer == cmd.open == withTimeout
    case NoConnection => cmd.phase != InFlight && cmd.outcome == Some(Err("Connection closed while waiting for permit"))
    case Rejected(error) => cmd.phase != InFlight && cmd.outcome == Some(Err(error)) && cmd.ref == Freed && !cmd.open
  }

  lemma ReadyIssued(c: Client, id: nat, issued: Issued, withTimeout: bool)
    requires ClientInv(c) && InPhase(c, id, Ready)
    ensures var cmd := IssueCommand(c.commands[id], issued, withTimeout);
      && IssuedAs(cmd, issued, withTimeout) && IssuedAs(cmd.(phase := Gone), issued, withTimeout) == (issued != Queued)
      && cmd.phase == if issued == Queued then InFlight else Resumed
  {
    assert IdInv(c, id);
    IssueMeans(c.commands[id], c.loop == HandlesClosed, issued, withTimeout);
    hide CommandInv, IssueCommand;
  }

  lemma ReplyKeeps(cmd: Command, reply: Result<string>, closed: bool, holds: bool, waits: bool, asked: bool)
    requires CommandInv(cmd, closed, holds, waits, asked) && cmd.ref == Held
    ensures CommandInv(Reply(cmd, reply), closed, holds, waits, asked)
  {
  }

  /** Stopping changes no command but for its timer. */
  lemma StopInv(c: Client, a: Action)
    requires ClientInv(c) && CanAct(c, a) && (a == StopBegins || a == CloseHandles)
    ensures ClientInv(Act(c, a))
  {
    var c' := Act(c, a);
    forall i: nat | i < |c'.commands| ensures IdInv(c', i) { assert IdInv(c, i); }
  }

  lemma ActInv(c: Client, a: Action)
    requires ClientInv(c) && CanAct(c, a)
    ensures ClientInv(Act(c, a))
  {
    match a
    case Submit => SubmitInv(c);
    case StopBegins => StopInv(c, a);
    case CloseHandles => StopInv(c, a);
    case Execute(id) => ExecuteInv(c, id);
    case Issue(id, issued, withTimeout) =>
      assert IdInv(c, id);
      IssueKeeps(c.commands[id], c.loop == HandlesClosed, issued, withTimeout);
      ChangeOne(c, id, IssueCommand(c.commands[id], issued, withTimeout));
    case OnReply(id, reply) =>
      assert IdInv(c, id);
      ReplyKeeps(c.commands[id], reply, c.loop == HandlesClosed, id in c.limiter.holders, id in c.limiter.waiters, id in c.limiter.asked);
      ChangeOne(c, id, Reply(c.commands[id], reply));
    case ResumeTimedOut(id) =>
      assert IdInv(c, id);
      ChangeOne(c, id, Resume(c.commands[id]));
    case OnTimeout(id) =>
      assert IdInv(c, id);
      if !c.commands[id].completed {
        GiveBackInv(c, id, Fail(CloseTimer(c.commands[id].(completed := true, phase := TimedOut)), "Request timeout"));
      }
    case Destroy(id) =>
      assert IdInv(c, id);
      GiveBackInv(c, id, c.commands[id].(phase := Gone));
  }

  lemma {:induction false} HistoryInv(c: Client, actions: seq<Action>)
    requires ClientInv(c) && IsHistory(c, actions)
    ensures ClientInv(Reached(c, actions))
    decreases |actions|
  {
    hide ClientInv;
    if actions != [] {
      ActInv(c, actions[0]);
      HistoryInv(Act(c, actions[0]), actions[1..]);
    }
  }

  lemma {:induction false} HistorySnoc(c: Client, actions: seq<Action>, a: Action)
    requires IsHistory(c, actions) && CanAct(Reached(c, actions), a)
    ensures IsHistory(c, actions + [a]) && Reached(c, actions + [a]) == Act(Reached(c, actions), a)
    decreases |actions|
  {
    if actions != [] {
      HistorySnoc(Act(c, actions[0]), actions[1..], a);
      assert (actions + [a])[1..] == actions[1..] + [a];
    } else {
      assert [a][1..] == [];
    }
  }

  // ---------------------------------------------------------------------------------------
  // Every history

  /**
   At any time: no coroutine was resumed twice and no record freed twice. A timer was closed twice
   exactly if the stop's walk closed it while the command was in flight and the command has since
   been decided, by its reply; until the handles are walked, never.
   */
  lemma NeverTwice(max: nat, actions: seq<Action>, id: nat)
    requires IsHistory(NewClient(max), actions) && id < |Reached(NewClient(max), actions).commands|
    ensures var c := Reached(NewClient(max), actions);
      var cmd := c.commands[id];
      && cmd.resumes <= 1 && cmd.refFrees <= 1 && cmd.closes <= 2
      && (cmd.closes == 2 <==> cmd.walked && cmd.outcome.Some?)
      && (c.loop != HandlesClosed ==> cmd.closes <= 1)
      && (cmd.timer ==> cmd.phase == InFlight)
      && (id in c.limiter.holders ==> cmd.phase == Ready || cmd.phase == InFlight || cmd.phase == Resumed)
      && c.limiter.current <= c.limiter.max
  {
    HistoryInv(NewClient(max), actions);
    assert IdInv(Reached(NewClient(max), actions), id);
  }

  ghost predicate Settled(c: Client) {
    forall id: nat :: id < |c.commands| ==> c.commands[id].phase == Gone && c.commands[id].ref != Held
  }

  /**
   When all states are gone and hiredis holds nothing, every coroutine has been resumed once, every
   record was freed once, every timer closed once, and once more if the walk had closed it before,
   and all permits are back.
   */
  lemma AllPermitsReturn(max: nat, actions: seq<Action>)
    requires IsHistory(NewClient(max), actions) && Settled(Reached(NewClient(max), actions))
    ensures var c := Reached(NewClient(max), actions);
      && c.limiter.current == 0 && c.limiter.waiters == [] && c.limiter.holders == {} && NoDup(c.limiter.granted)
      && forall id: nat :: id < |c.commands| ==> var cmd := c.commands[id];
           && cmd.resumes == 1 && cmd.closes == (if cmd.made then 1 else 0) + (if cmd.walked then 1 else 0)
           && cmd.refFrees == (if cmd.ref == NoRef then 0 else 1)
           && (cmd.ref != NoRef ==> id in c.limiter.granted)
  {
    var c := Reached(NewClient(max), actions);
    HistoryInv(NewClient(max), actions);
    HoldersAreAsked(c.limiter);
    forall id | id in c.limiter.holders ensures !InPhase(c, id, Gone) && id < |c.commands| { HolderIsNotGone(c, id); }
    assert c.limiter.holders == {};
    if c.limiter.waiters != [] {
      var w := c.limiter.waiters[0];
      assert w in c.limiter.asked;
      WaitingIsNotGone(c, w);
    }
    assert c.limiter.granted == c.limiter.asked;
    forall id: nat | id < |c.commands| ensures CommandInv(c.commands[id], c.loop == HandlesClosed, false, false, id in c.limiter.asked) {
      assert IdInv(c, id);
    }
  }

  lemma HolderIsNotGone(c: Client, id: nat)
    requires ClientInv(c) && id in c.limiter.holders
    ensures id < |c.commands| && c.commands[id].phase != Gone
  {
    HoldersAreAsked(c.limiter);
    assert IdInv(c, id);
  }

  lemma WaitingIsNotGone(c: Client, id: nat)
    requires ClientInv(c) && id in c.limiter.waiters && id in c.limiter.asked
    ensures id < |c.commands| && c.commands[id].phase == Waiting
  {
    assert IdInv(c, id);
  }

  lemma WaitersWait(c: Client)
    requires ClientInv(c)
    ensures forall w :: w in c.limiter.waiters ==> InPhase(c, w, Waiting)
  {
    HoldersAreAsked(c.limiter);
    forall w | w in c.limiter.waiters ensures InPhase(c, w, Waiting) { WaitingIsNotGone(c, w); }
  }

  /** What the first of reply, timeout and failure decided stays decided. */
  lemma FirstEventDecides(c: Client, a: Action, id: nat)
    requires ClientInv(c) && CanAct(c, a) && id < |c.commands| && c.commands[id].outcome.Some?
    ensures id < |Act(c, a).commands| && Act(c, a).commands[id].outcome == c.commands[id].outcome
  {
    assert IdInv(c, id);
    if a.OnReply? { assert IdInv(c, a.id); }
    if a.OnTimeout? { assert IdInv(c, a.id); }
    hide Inv, DoStep;
  }

  // ---------------------------------------------------------------------------------------
  // Every history ends

  function Left(cmd: Command): nat {
    (match cmd.phase
     case Posted => 7
     case Waiting => 6
     case Ready => 5
     case InFlight => 3
     case TimedOut => 2
     case Resumed => 1
     case Gone => 0)
    + if cmd.ref == Held then 1 else 0
  }

  function StopsLeft(loop: Loop): nat {
    match loop case Up => 2 case Stopping => 1 case HandlesClosed => 0
  }

  function WorkLeft(c: Client): nat { Work(c.commands) + StopsLeft(c.loop) }

  lemma {:induction false} WalkWorks(commands: seq<Command>, walked: seq<Command>)
    requires |walked| == |commands| && forall i :: 0 <= i < |commands| ==> walked[i] == Walk(commands[i])
    ensures Work(walked) == Work(commands)
  {
    if commands != [] { WalkWorks(commands[1..], walked[1..]); }
  }

  function Work(commands: seq<Command>): nat {
    if commands == [] then 0 else Left(commands[0]) + Work(commands[1..])
  }

  lemma {:induction false} WorkUpdate(commands: seq<Command>, id: nat, cmd: Command)
    requires id < |commands|
    ensures Work(commands[id := cmd]) == Work(commands) - Left(commands[id]) + Left(cmd)
  {
    if id > 0 {
      WorkUpdate(commands[1..], id - 1, cmd);
      assert commands[id := cmd][1..] == commands[1..][id - 1 := cmd];
    }
  }

  /** Every action but a new submission brings some command closer to its end. */
  lemma ActWorks(c: Client, a: Action)
    requires ClientInv(c) && CanAct(c, a) && !a.Submit?
    ensures WorkLeft(Act(c, a)) < WorkLeft(c) && |Act(c, a).commands| == |c.commands|
  {
    if a.StopBegins? || a.CloseHandles? {
      WalkWorks(c.commands, seq(|c.commands|, i requires 0 <= i < |c.commands| => Walk(c.commands[i])));
    } else {
      CommandActWorks(c, a);
    }
  }

  lemma CommandActWorks(c: Client, a: Action)
    requires ClientInv(c) && CanAct(c, a) && !a.Submit? && !a.StopBegins? && !a.CloseHandles?
    ensures Work(Act(c, a).commands) < Work(c.commands) && |Act(c, a).commands| == |c.commands| && Act(c, a).loop == c.loop
  {
    if a.OnTimeout? || a.Destroy? {
      PermitActWorks(c, a);
    } else {
      assert IdInv(c, a.id);
      hide Inv, DoStep, Work, ClientInv;
      WorkUpdate(c.commands, a.id, Act(c, a).commands[a.id]);
    }
  }

  lemma PermitActWorks(c: Client, a: Action)
    requires ClientInv(c) && CanAct(c, a) && (a.OnTimeout? || a.Destroy?)
    ensures Work(Act(c, a).commands) < Work(c.commands) && |Act(c, a).commands| == |c.commands| && Act(c, a).loop == c.loop
  {
    assert IdInv(c, a.id);
    hide Inv, DoStep, Work, ClientInv, GiveBack;
    var cmd :=
      if a.Destroy? then c.commands[a.id].(phase := Gone)
      else Fail(CloseTimer(c.commands[a.id].(completed := true, phase := TimedOut)), "Request timeout");
    WorkUpdate(c.commands, a.id, cmd);
    GiveBackWorks(c, a.id, cmd);
  }

  lemma GiveBackWorks(c: Client, id: nat, cmd: Command)
    requires ClientInv(c) && id < |c.commands| && c.commands[id].phase != Waiting
    ensures var c1 := c.(commands := c.commands[id := cmd]);
      Work(GiveBack(c1, id).commands) <= Work(c1.commands) && |GiveBack(c1, id).commands| == |c.commands| && GiveBack(c1, id).loop == c.loop
  {
    var l := c.limiter;
    if id in l.holders && l.waiters != [] {
      var w := l.waiters[0];
      HoldersAreAsked(l);
      assert w in l.waiters;
      WaitingIsNotGone(c, w);
      hide ClientInv;
      WorkUpdate(c.commands[id := cmd], w, c.commands[w].(phase := Ready));
    }
  }

  /** From any state the actions other than submissions number at most eight for each command, and two for the stop. */
  lemma {:induction false} EveryHistoryEnds(c: Client, actions: seq<Action>)
    requires ClientInv(c) && IsHistory(c, actions)
    requires forall k :: 0 <= k < |actions| ==> !actions[k].Submit?
    ensures |actions| + WorkLeft(Reached(c, actions)) <= WorkLeft(c) <= 8 * |c.commands| + 2
    decreases |actions|
  {
    WorkBound(c.commands);
    hide ClientInv;
    if actions != [] {
      ActInv(c, actions[0]);
      ActWorks(c, actions[0]);
      EveryHistoryEnds(Act(c, actions[0]), actions[1..]);
    }
  }

  lemma WorkBound(commands: seq<Command>)
    ensures Work(commands) <= 8 * |commands|
  {
  }

  /** Until everything is settled some command can move on: stopping the loop is not needed for it. */
  lemma NeverStuck(c: Client) returns (a: Action)
    requires ClientInv(c) && c.limiter.max > 0 && !Settled(c)
    ensures CanAct(c, a) && !a.Submit? && !a.StopBegins? && !a.CloseHandles?
  {
    var id: nat :| id < |c.commands| && (c.commands[id].phase != Gone || c.commands[id].ref == Held);
    assert IdInv(c, id);
    if c.commands[id].phase == Waiting {
      var h := SomeHolder(c.limiter);
      HoldersAreAsked(c.limiter);
      assert IdInv(c, h);
      a := Next(c, h);
    } else {
      a := Next(c, id);
    }
  }

  lemma SomeHolder(l: Limiter) returns (h: nat)
    requires Inv(l) && l.max > 0 && l.waiters != []
    ensures h in l.holders
  {
    assert l.holders != {};
    h :| h in l.holders;
  }

  lemma Next(c: Client, id: nat) returns (a: Action)
    requires ClientInv(c) && id < |c.commands|
    requires c.commands[id].phase != Waiting && (c.commands[id].phase != Gone || c.commands[id].ref == Held)
    ensures CanAct(c, a) && !a.Submit? && !a.StopBegins? && !a.CloseHandles?
  {
    assert IdInv(c, id);
    match c.commands[id].phase
    case Posted => a := Execute(id);
    case Ready => a := Issue(id, Queued, false);
    case InFlight => a := OnReply(id, Err("closed"));
    case TimedOut => a := ResumeTimedOut(id);
    case Resumed => a := Destroy(id);
    case _ => a := OnReply(id, Err("closed"));
  }

  /** A history that closes a timer twice: a reply read in the iteration in which the loop was stopped. */
  lemma ClosedTwice() returns (actions: seq<Action>)
    ensures IsHistory(NewClient(1), actions) && |Reached(NewClient(1), actions).commands| == 1
    ensures Reached(NewClient(1), actions).commands[0].closes == 2
  {
    var c3 := AfterIssue();
    var first := [Submit] + [Execute(0)] + [Issue(0, Queued, true)];
    assert IsHistory(NewClient(1), first) && Reached(NewClient(1), first) == c3;
    hide IsHistory, Reached;
    HistorySnoc(NewClient(1), first, StopBegins);
    HistorySnoc(NewClient(1), first + [StopBegins], CloseHandles);
    HistorySnoc(NewClient(1), first + [StopBegins] + [CloseHandles], OnReply(0, Ok("late")));
    actions := first + [StopBegins] + [CloseHandles] + [OnReply(0, Ok("late"))];
  }

  lemma AfterIssue() returns (c: Client)
    ensures var first := [Submit] + [Execute(0)] + [Issue(0, Queued, true)];
      IsHistory(NewClient(1), first) && Reached(NewClient(1), first) == c
    ensures |c.commands| == 1 && c.loop == Up
    ensures c.commands[0] == Command(InFlight, false, true, Held, None, 0, 0, true, true, false, 0)
  {
    var c1 := Act(NewClient(1), Submit);
    var c2 := Act(c1, Execute(0));
    c := Act(c2, Issue(0, Queued, true));
    assert IsHistory(NewClient(1), []) && Reached(NewClient(1), []) == NewClient(1);
    assert c1.commands == [NewCommand()];
    hide IsHistory, Reached;
    HistorySnoc(NewClient(1), [], Submit);
    assert [] + [Submit] == [Submit];
    HistorySnoc(NewClient(1), [Submit], Execute(0));
    HistorySnoc(NewClient(1), [Submit] + [Execute(0)], Issue(0, Queued, true));
  }
}
