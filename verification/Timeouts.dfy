/** Deadlines on one clock, and what a run says when one has passed. */
module Timeouts {
  import opened Wrappers

  const REQUEST_DEADLINE := "Request deadline exceeded"
  const EXPIRED_BEFORE_START := "Node execution timeout (deadline exceeded before start)"
  const EXPIRED := "Node execution timeout (deadline exceeded)"
  const NODE_TIMEOUT := "Node execution timeout"

  predicate IsNodeTimeout(e: string) { e == EXPIRED_BEFORE_START || e == EXPIRED || e == NODE_TIMEOUT }

  /**
   The request's deadline and the time a node may take. `early` is how long before its deadline a
   timer may fire: the time left is cut to whole milliseconds when the timer is started.
   */
  datatype Limits = Limits(request: Option<int>, node: Option<nat>, early: nat)

  function Exceeded(now: int, deadline: Option<int>): bool { deadline.Some? && now >= deadline.value }

  /** `compute_effective_deadline`. */
  function EffectiveDeadline(limits: Limits, start: int): Option<int> {
    if limits.node.None? then limits.request
    else if limits.request.None? || start + limits.node.value < limits.request.value then Some(start + limits.node.value)
    else limits.request
  }

  /** The earlier of the two, whichever there are. */
  lemma EffectiveIsEarlier(limits: Limits, start: int)
    ensures var d := EffectiveDeadline(limits, start);
      && (d.None? <==> limits.request.None? && limits.node.None?)
      && (limits.request.Some? ==> d.value <= limits.request.value)
      && (limits.node.Some? ==> d.value <= start + limits.node.value)
      && (d.Some? ==> d == limits.request || (limits.node.Some? && d.value == start + limits.node.value))
  {
  }

  /** A node given up for a deadline of its own is timed out rightly. */
  lemma GivenUpRightly(limits: Limits, begun: int, now: int, deadline: Option<int>, e: string)
    requires IsNodeTimeout(e) && NodeDeadline(limits, begun, now, deadline) && Exceeded(now + limits.early, deadline)
    ensures Justified(limits, begun, now, e)
  {
  }

  /** A deadline some node of the run may have: that of a node started since the run began. */
  ghost predicate NodeDeadline(limits: Limits, begun: int, now: int, deadline: Option<int>) {
    exists start :: StartedAt(limits, begun, now, deadline, start)
  }

  ghost predicate StartedAt(limits: Limits, begun: int, now: int, deadline: Option<int>, start: int) {
    begun <= start <= now && deadline == EffectiveDeadline(limits, start)
  }

  /** The text is that of a deadline which has passed, of the request or of some node; a timer's may be about to. */
  ghost predicate Justified(limits: Limits, begun: int, now: int, e: string) {
    || (e == REQUEST_DEADLINE && limits.request.Some? && now >= limits.request.value)
    || (IsNodeTimeout(e) && exists d: int :: NodeDeadline(limits, begun, now, Some(d)) && now + limits.early >= d)
  }

  /** No deadline of the run has passed, nor is about to. */
  predicate OnTime(limits: Limits, begun: int, now: int) {
    && (limits.request.Some? ==> now + limits.early < limits.request.value)
    && (limits.node.Some? ==> now + limits.early < begun + limits.node.value)
  }

  lemma OnTimeNeverLate(limits: Limits, begun: int, now: int, e: string)
    requires OnTime(limits, begun, now)
    ensures !Justified(limits, begun, now, e)
  {
    forall d: int | NodeDeadline(limits, begun, now, Some(d)) ensures now + limits.early < d {
      var start :| StartedAt(limits, begun, now, Some(d), start);
    }
  }

  lemma LaterJustified(limits: Limits, begun: int, now: int, later: int, e: string)
    requires now <= later && Justified(limits, begun, now, e)
    ensures Justified(limits, begun, later, e)
  {
    if d: int :| NodeDeadline(limits, begun, now, Some(d)) && now + limits.early >= d {
      LaterDeadline(limits, begun, now, later, Some(d));
    }
  }

  lemma LaterDeadline(limits: Limits, begun: int, now: int, later: int, deadline: Option<int>)
    requires now <= later && NodeDeadline(limits, begun, now, deadline)
    ensures NodeDeadline(limits, begun, later, deadline)
  {
    var start :| StartedAt(limits, begun, now, deadline, start);
    assert StartedAt(limits, begun, later, deadline, start);
  }
}
