/**
 The FIFO permit limiter for coroutines.

 `Limiter` is the limiter's state together with who holds a permit and two logs; `Step` is one of
 its operations. `AsyncInflightLimiter` is the object. A coroutine that `release` resumes runs,
 and may call the limiter again, before `release` returns.
 */
module InflightLimiter {
  import opened Wrappers

  /** `asked` lists the requests for a permit in order of arrival, `granted` those that were served. */
  datatype Limiter = Limiter(
    max: nat, current: int, waiters: seq<nat>, holders: set<nat>,
    asked: seq<nat>, granted: seq<nat>)

  datatype Step = Acquire(id: nat) | TryAcquire(id: nat) | Release(id: nat)

  function Init(max: nat): Limiter { Limiter(max, 0, [], {}, [], []) }

  /** Each request has its own `id`; a permit is given back by whoever holds it. */
  predicate Enabled(l: Limiter, step: Step) {
    match step
    case Acquire(id) => id !in l.asked
    case TryAcquire(id) => id !in l.asked
    case Release(id) => id in l.holders
  }

  function DoStep(l: Limiter, step: Step): Limiter
    requires Enabled(l, step)
  {
    match step
    case Acquire(id) => if l.current < l.max then Granted(l, id) else l.(waiters := l.waiters + [id], asked := l.asked + [id])
    case TryAcquire(id) => if l.current < l.max then Granted(l, id) else l
    case Release(id) =>
      if l.waiters != [] then
        l.(waiters := l.waiters[1..], holders := l.holders - {id} + {l.waiters[0]}, granted := l.granted + [l.waiters[0]])
      else
        l.(current := l.current - 1, holders := l.holders - {id})
  }

  function Granted(l: Limiter, id: nat): Limiter {
    l.(current := l.current + 1, holders := l.holders + {id}, asked := l.asked + [id], granted := l.granted + [id])
  }

  ghost predicate IsRun(l: Limiter, steps: seq<Step>)
    decreases |steps|
  {
    steps == [] || (Enabled(l, steps[0]) && IsRun(DoStep(l, steps[0]), steps[1..]))
  }

  ghost function After(l: Limiter, steps: seq<Step>): Limiter
    requires IsRun(l, steps)
    decreases |steps|
  {
    if steps == [] then l else After(DoStep(l, steps[0]), steps[1..])
  }

  /**
   Permits are counted exactly and never exceed the bound, somebody waits only while none is free,
   and requests are served in the order in which they came.
   */
  ghost predicate Inv(l: Limiter) {
    && l.current == |l.holders| <= l.max
    && (l.waiters != [] ==> l.current == l.max)
    && l.granted + l.waiters == l.asked
    && NoDup(l.asked)
    && (forall id :: id in l.holders ==> id in l.granted)
  }

  lemma StepInv(l: Limiter, step: Step)
    requires Inv(l) && Enabled(l, step)
    ensures Inv(DoStep(l, step)) && l.asked <= DoStep(l, step).asked && DoStep(l, step).max == l.max
  {
    var l' := DoStep(l, step);
    if step.Release? && l.waiters != [] {
      var w := l.waiters[0];
      WaiterIsNew(l, w);
      assert |l.holders - {step.id}| == |l.holders| - 1;
      assert l.granted + [w] + l.waiters[1..] == l.granted + l.waiters;
    } else if l.waiters == [] {
      assert l'.granted + l'.waiters == l'.asked;
    }
  }

  lemma WaiterIsNew(l: Limiter, w: nat)
    requires Inv(l) && l.waiters != [] && w == l.waiters[0]
    ensures w !in l.holders && w !in l.granted
  {
    assert l.asked[|l.granted|] == w;
    forall k | 0 <= k < |l.granted| ensures l.granted[k] != w {
      assert l.asked[k] == l.granted[k];
    }
  }

  lemma {:induction false} RunInv(l: Limiter, steps: seq<Step>)
    requires Inv(l) && IsRun(l, steps)
    ensures Inv(After(l, steps)) && l.asked <= After(l, steps).asked && After(l, steps).max == l.max
    decreases |steps|
  {
    hide Inv;
    if steps != [] {
      StepInv(l, steps[0]);
      RunInv(DoStep(l, steps[0]), steps[1..]);
    }
  }

  /** The whole life of a limiter: exact counting, the bound, and first come, first served. */
  lemma EveryRunIsFair(max: nat, steps: seq<Step>)
    requires IsRun(Init(max), steps)
    ensures var l := After(Init(max), steps);
      && |l.holders| == l.current <= max
      && (l.waiters != [] ==> l.current == max)
      && l.granted + l.waiters == l.asked && NoDup(l.granted)
  {
    RunInv(Init(max), steps);
    var l := After(Init(max), steps);
    forall i, j | 0 <= i < j < |l.granted| ensures l.granted[i] != l.granted[j] {
      assert l.asked[i] == l.granted[i] && l.asked[j] == l.granted[j];
    }
  }

  lemma HoldersAsked(max: nat, steps: seq<Step>)
    requires IsRun(Init(max), steps)
    ensures forall id :: id in After(Init(max), steps).holders ==> id in After(Init(max), steps).asked
  {
    RunInv(Init(max), steps);
    var l := After(Init(max), steps);
    forall id | id in l.holders ensures id in l.asked { assert id in l.granted + l.waiters; }
  }

  function Releases(steps: seq<Step>): nat {
    if steps == [] then 0 else (if steps[0].Release? then 1 else 0) + Releases(steps[1..])
  }

  /** Every release serves somebody as long as anybody waits. */
  lemma {:induction false} ReleasesServe(l: Limiter, steps: seq<Step>, n: nat)
    requires Inv(l) && IsRun(l, steps) && n <= Releases(steps) && n <= |l.waiters|
    ensures |After(l, steps).granted| >= |l.granted| + n
    decreases |steps|
  {
    if steps != [] {
      var l' := DoStep(l, steps[0]);
      StepInv(l, steps[0]);
      var served := if steps[0].Release? && n > 0 then 1 else 0;
      ReleasesServe(l', steps[1..], n - served);
    }
  }

  /** A waiter with `k` others ahead of it has its permit after `k + 1` releases, whoever comes meanwhile. */
  lemma ServedAfterReleases(l: Limiter, steps: seq<Step>, k: nat)
    requires Inv(l) && IsRun(l, steps) && k < |l.waiters| && k < Releases(steps)
    ensures l.waiters[k] in After(l, steps).granted
  {
    var l' := After(l, steps);
    ReleasesServe(l, steps, k + 1);
    RunInv(l, steps);
    var at := |l.granted| + k;
    assert l'.granted[at] == l'.asked[at] == l.asked[at] == l.waiters[k];
  }

  lemma {:induction false} RunSnoc(l: Limiter, steps: seq<Step>, step: Step)
    requires IsRun(l, steps) && Enabled(After(l, steps), step)
    ensures IsRun(l, steps + [step]) && After(l, steps + [step]) == DoStep(After(l, steps), step)
    decreases |steps|
  {
    if steps != [] {
      RunSnoc(DoStep(l, steps[0]), steps[1..], step);
      assert (steps + [step])[1..] == steps[1..] + [step];
    } else {
      assert [step][1..] == [];
    }
  }

  /** The limiter object. `holders` and the logs record who has which guard; `trace` is its history. */
  class AsyncInflightLimiter {
    const maxPermits: nat
    var current: int
    var waiters: seq<nat>
    var holders: set<nat>
    var asked: seq<nat>
    var granted: seq<nat>
    ghost var trace: seq<Step>

    ghost function View(): Limiter
      reads this
    {
      Limiter(maxPermits, current, waiters, holders, asked, granted)
    }

    /** The object got where it is by the steps in `trace`, one after the other. */
    ghost predicate Valid()
      reads this
    {
      IsRun(Init(maxPermits), trace) && After(Init(maxPermits), trace) == View()
    }

    constructor (max: nat)
      ensures Valid() && View() == Init(max)
    {
      maxPermits := max;
      current, waiters, holders, asked, granted, trace := 0, [], {}, [], [], [];
    }

    method TryAcquire(id: nat) returns (ok: bool)
      requires Valid() && id !in asked
      modifies this
      ensures Valid() && View() == DoStep(old(View()), Step.TryAcquire(id))
      ensures trace == old(trace) + [Step.TryAcquire(id)] && ok == (old(current) < maxPermits)
      ensures if ok then current == old(current) + 1 && holders == old(holders) + {id} else unchanged(this`current, this`holders, this`asked)
      ensures waiters == old(waiters)
    {
      RunSnoc(Init(maxPermits), trace, Step.TryAcquire(id));
      trace := trace + [Step.TryAcquire(id)];
      ok := current < maxPermits;
      if ok {
        current, holders, asked, granted := current + 1, holders + {id}, asked + [id], granted + [id];
      }
    }

    /** `co_await acquire()`: false when the coroutine suspends in the queue. */
    method Acquire(id: nat) returns (ready: bool)
      requires Valid() && id !in asked
      modifies this
      ensures Valid() && View() == DoStep(old(View()), Step.Acquire(id))
      ensures trace == old(trace) + [Step.Acquire(id)] && ready == (id in holders) == (old(current) < maxPermits)
      ensures if ready then current == old(current) + 1 && holders == old(holders) + {id} && waiters == old(waiters)
        else unchanged(this`current, this`holders) && waiters == old(waiters) + [id]
    {
      HoldersAsked(maxPermits, trace);
      RunSnoc(Init(maxPermits), trace, Step.Acquire(id));
      hide IsRun, After;
      trace := trace + [Step.Acquire(id)];
      ready := current < maxPermits;
      if ready {
        current, holders, asked, granted := current + 1, holders + {id}, asked + [id], granted + [id];
      } else {
        waiters, asked := waiters + [id], asked + [id];
      }
    }

    /** The state change of `release`; the caller resumes the coroutine that is returned. */
    method PassPermit(id: nat) returns (next: Option<nat>)
      requires Valid() && id in holders
      modifies this
      ensures Valid() && View() == DoStep(old(View()), Step.Release(id)) && trace == old(trace) + [Step.Release(id)]
      ensures if old(waiters) == [] then next == None && current == old(current) - 1 && holders == old(holders) - {id} && waiters == []
        else next == Some(old(waiters)[0]) && current == old(current) && holders == old(holders) - {id} + {next.value} && waiters == old(waiters)[1..]
    {
      RunSnoc(Init(maxPermits), trace, Step.Release(id));
      trace := trace + [Step.Release(id)];
      if waiters != [] {
        next := Some(waiters[0]);
        holders, granted := holders - {id} + {waiters[0]}, granted + [waiters[0]];
        waiters := waiters[1..];
      } else {
        next := None;
        current, holders := current - 1, holders - {id};
      }
    }

    /** `release`, with the resumed coroutine run to its next suspension inside it. */
    method Release(id: nat, budget: nat) returns (left: nat)
      requires Valid() && id in holders
      modifies this
      ensures Valid() && old(trace) + [Step.Release(id)] <= trace && left <= budget
      decreases budget, 1
    {
      var next := PassPermit(id);
      left := budget;
      if next.Some? { left := RunCoroutine(budget); }
    }

    /**
     A coroutine between two suspensions: it asks for permits and drops guards in any order, at
     most `budget` times in all, counting what the coroutines resumed inside it do.
     */
    method RunCoroutine(budget: nat) returns (left: nat)
      requires Valid()
      modifies this
      ensures Valid() && old(trace) <= trace && left <= budget
      decreases budget, 0
    {
      left := budget;
      while left > 0
        invariant Valid() && old(trace) <= trace && left <= budget
        decreases left
      {
        if * { return; }
        left := left - 1;
        var id: nat := *;
        if id in holders {
          left := Release(id, left);
        } else if id !in asked {
          var ready := Acquire(id);
          if !ready { return; }
        }
      }
    }
  }
}
