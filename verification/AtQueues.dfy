/**
 Every payload event queue of the bus and its targets stays in time order, so nobody is overtaken by a later entry.
 */
module AtQueues {
  import opened PayloadQueue
  import opened AtProtocol

  ghost predicate QueuesSorted(s: State) {
    && Sorted(s.requests) && Sorted(s.responses)
    && (forall k | 0 <= k < |s.targets| :: Sorted(s.targets[k].queue))
  }

  /** What a step can do to a queue: take its head, or schedule one transaction, or both. */
  ghost predicate Moved(q: Queue, q': Queue) {
    || q' == q
    || (q != [] && q' == q[1..])
    || (exists x, due :: q' == Notify(q, x, due))
  }

  lemma MovedSorted(q: Queue, q': Queue)
    requires Sorted(q) && Moved(q, q')
    ensures Sorted(q')
  {
    if q' != q && !(q != [] && q' == q[1..]) {
      var x, due :| q' == Notify(q, x, due);
      NotifySorted(q, x, due);
    }
  }

  lemma ForwardMoves(s: State, k: nat)
    requires s.requests != []
    ensures var s' := DoForward(s);
      && Moved(s.requests, s'.requests) && Moved(s.responses, s'.responses) && |s'.targets| == |s.targets|
      && (k < |s.targets| ==> Moved(s.targets[k].queue, s'.targets[k].queue))
  {
    hide PassedOn, Notify;
  }

  lemma StepMoves(s: State, step: Step, k: nat)
    requires Enabled(s, step)
    ensures var s' := Next(s, step);
      && Moved(s.requests, s'.requests) && Moved(s.responses, s'.responses) && |s'.targets| == |s.targets|
      && (k < |s.targets| ==> Moved(s.targets[k].queue, s'.targets[k].queue))
  {
    hide Earliest, Notify, DoForward;
    if step.Forward? { ForwardMoves(s, k); }
  }

  lemma StepSorted(s: State, step: Step)
    requires Enabled(s, step) && QueuesSorted(s)
    ensures QueuesSorted(Next(s, step))
  {
    hide Moved, Sorted, Next, Enabled;
    var s' := Next(s, step);
    StepMoves(s, step, 0);
    MovedSorted(s.requests, s'.requests);
    MovedSorted(s.responses, s'.responses);
    forall k | 0 <= k < |s'.targets| ensures Sorted(s'.targets[k].queue) {
      StepMoves(s, step, k);
      MovedSorted(s.targets[k].queue, s'.targets[k].queue);
    }
  }

  lemma {:induction false} RunSorted(s: State, steps: seq<Step>, s': State)
    requires Runs(s, steps, s') && QueuesSorted(s)
    ensures QueuesSorted(s')
    decreases |steps|
  {
    if steps != [] {
      StepSorted(s, steps[0]);
      RunSorted(Next(s, steps[0]), steps[1..], s');
    }
  }

  /** The transaction at the head of a queue is never later than another one in it. */
  lemma HeadIsEarliest(s: State)
    requires Reachable(s)
    ensures forall e | e in s.requests :: s.requests[0].due <= e.due
    ensures forall e | e in s.responses :: s.responses[0].due <= e.due
    ensures forall k, e | 0 <= k < |s.targets| && e in s.targets[k].queue :: s.targets[k].queue[0].due <= e.due
  {
    var s0, steps :| Initial(s0) && Runs(s0, steps, s);
    RunSorted(s0, steps, s);
  }
}
