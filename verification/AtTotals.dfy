/**
 What the order of phases means in numbers, for every run of the bus: how often each call was made for a
 transaction, and which requests a target defers.
 */
module AtTotals {
  import opened AddressMap
  import opened PayloadQueue
  import opened AtProtocol
  import opened AtInvariant
  import opened AtPhases

  /** How many calls of each kind were made for one transaction. */
  datatype Totals = Totals(asked: nat, sent: nat, operated: nat, closed: nat, deferred: nat, endReqs: nat,
                           responded: nat, responses: nat, endResps: nat, released: nat)

  function Add(t: Totals, e: Event): Totals {
    match e
    case Asked(_, _, _, _, _) => t.(asked := t.asked + 1)
    case Sent(_, _, _, _) => t.(sent := t.sent + 1)
    case Operated(_, _) => t.(operated := t.operated + 1)
    case Closed(_, _, _) => t.(closed := t.closed + 1)
    case Deferred(_, _, _) => t.(deferred := t.deferred + 1)
    case SentEndReq(_, _, _) => t.(endReqs := t.endReqs + 1)
    case Responded(_, _, _) => t.(responded := t.responded + 1)
    case SentResp(_, _, _, _, _) => t.(responses := t.responses + 1)
    case SentEndResp(_, _, _) => t.(endResps := t.endResps + 1)
    case Released(_, _) => t.(released := t.released + 1)
    case Ended(_, _, _) => t
  }

  function Tally(log: seq<Event>, x: Txn): Totals {
    if log == [] then Totals(0, 0, 0, 0, 0, 0, 0, 0, 0, 0)
    else
      var t := Tally(log[..|log| - 1], x);
      if log[|log| - 1].txn == x then Add(t, log[|log| - 1]) else t
  }

  function If(b: bool): nat { if b then 1 else 0 }

  /**
   Every request is operated once and answered once; END_REQ, BEGIN_RESP from the target and END_RESP to
   the target each happen once per deferred request and never for one that was closed at once.
   */
  predicate Balanced(t: Totals, l: Life) {
    && t.asked == t.sent + If(l.Requested?)
    && t.asked == t.operated + If(l.Requested? || l.Passed? || l.Waiting?)
    && t.asked == t.responses + If(!l.Rest? && !l.Responding? && !l.Ending?)
    && t.asked == t.released + If(!l.Rest?)
    && t.sent == t.closed + t.deferred + If(l.Passed? || l.Finished?)
    && t.deferred == t.endReqs + If(l.Waiting? && !l.endReq)
    && t.deferred == t.responded + If(l.Waiting? || l.Ran?)
    && t.deferred == t.endResps + If(l.Waiting? || l.Ran? || ((l.Answered? || l.Responding?) && l.expecting.Some?))
  }

  /** Calls in order are balanced, whatever made them. */
  lemma {:induction false} InOrderBalanced(log: seq<Event>, x: Txn)
    requires Monitor(log, x) != Illegal
    ensures Balanced(Tally(log, x), Monitor(log, x))
  {
    if log != [] {
      InOrderBalanced(log[..|log| - 1], x);
      if log[|log| - 1].txn == x {
        MoveBalanced(Tally(log[..|log| - 1], x), Monitor(log[..|log| - 1], x), log[|log| - 1]);
      }
    }
  }

  lemma MoveBalanced(t: Totals, l: Life, e: Event)
    requires Balanced(t, l) && Move(l, e) != Illegal
    ensures Balanced(Add(t, e), Move(l, e))
  {
  }

  /**
   In every reachable state a transaction was operated once per request, before its BEGIN_RESP reached the
   initiator; and when it is not pending, once exactly, with END_RESP for each deferral.
   */
  lemma OperatedOnce(s: State, x: Txn)
    requires Reachable(s)
    ensures var t := Tally(s.log, x);
      && t.responses <= t.operated <= t.asked <= t.responses + 1
      && (x !in s.pending ==>
            && t.operated == t.asked == t.responses == t.released
            && t.endResps == t.endReqs == t.responded == t.deferred)
  {
    PhasesInOrder(s, x);
    InOrderBalanced(s.log, x);
  }

  // ---------------------------------------------------------------- every twentieth request

  /** How many requests were passed to target `k`. */
  function SentTo(log: seq<Event>, k: nat): nat {
    if log == [] then 0
    else SentTo(log[..|log| - 1], k) + if log[|log| - 1].Sent? && log[|log| - 1].to == k then 1 else 0
  }

  /** Target `k` deferred exactly those requests whose number is a multiple of twenty. */
  predicate EveryTwentieth(log: seq<Event>, k: nat) {
    log == [] ||
    (var before, e := log[..|log| - 1], log[|log| - 1];
     && EveryTwentieth(before, k)
     && (e.Closed? && e.to == k ==> SentTo(before, k) % 20 != 0)
     && (e.Deferred? && e.to == k ==> SentTo(before, k) % 20 == 0))
  }

  predicate Cadence(s: State, k: nat) {
    k < |s.targets| ==> s.targets[k].count == SentTo(s.log, k) + 1 && EveryTwentieth(s.log, k)
  }

  lemma Append(log: seq<Event>, e: Event, k: nat)
    ensures SentTo(log + [e], k) == SentTo(log, k) + If(e.Sent? && e.to == k)
    ensures EveryTwentieth(log + [e], k) ==
            (&& EveryTwentieth(log, k)
             && (e.Closed? && e.to == k ==> SentTo(log, k) % 20 != 0)
             && (e.Deferred? && e.to == k ==> SentTo(log, k) % 20 == 0))
  {
    assert (log + [e])[..|log|] == log;
  }

  lemma ForwardCompletedCadence(s: State, x: Txn, d: nat, k: nat)
    requires s.requests != [] && x == s.requests[0].txn && x in s.payload && x in s.pending
    requires d == Decode(s.payload[x].address) < |s.targets| && Completes(s) && Cadence(s, k)
    ensures Cadence(DoForward(s), k)
  {
    var sent := Sent(x, d, Mask(s.payload[x].address), s.now);
    var log := s.log + [sent];
    Append(s.log, sent, k);
    Append(log, Operated(x, d), k);
    Append(log + [Operated(x, d)], Closed(x, d, s.now), k);
    assert DoForward(s).log == log + [Operated(x, d)] + [Closed(x, d, s.now)];
  }

  lemma ForwardDeferredCadence(s: State, x: Txn, d: nat, k: nat)
    requires s.requests != [] && x == s.requests[0].txn && x in s.payload && x in s.pending
    requires d == Decode(s.payload[x].address) < |s.targets| && !Completes(s) && Cadence(s, k)
    ensures Cadence(DoForward(s), k)
  {
    var sent := Sent(x, d, Mask(s.payload[x].address), s.now);
    var log := s.log + [sent];
    Append(s.log, sent, k);
    Append(log, Deferred(x, d, s.now), k);
    assert DoForward(s).log == log + [Deferred(x, d, s.now)];
  }

  lemma CloseCadence(s: State, k: nat)
    requires s.resp.RespPause? || s.resp.RespGo?
    requires Local(s, s.resp.txn, k) && Cadence(s, k)
    ensures Cadence(DoClose(s), k)
  {
    var x := s.resp.txn;
    match s.pending[x].to
    case None => Append(s.log, Released(x, s.now), k);
    case Some(t) =>
      Append(s.log, SentEndResp(x, t, s.now), k);
      Append(s.log + [SentEndResp(x, t, s.now)], Released(x, s.now), k);
      assert DoClose(s).log == s.log + [SentEndResp(x, t, s.now)] + [Released(x, s.now)];
  }

  lemma TargetRespondCadence(s: State, t: nat, k: nat)
    requires t < |s.targets| && s.targets[t].queue != [] && Cadence(s, k)
    ensures Cadence(DoTargetRespond(s, t), k)
  {
    var x := s.targets[t].queue[0].txn;
    Append(s.log, Operated(x, t), k);
    Append(s.log + [Operated(x, t)], Responded(x, t, s.now), k);
    assert DoTargetRespond(s, t).log == s.log + [Operated(x, t)] + [Responded(x, t, s.now)];
  }

  lemma StepCadence(s: State, step: Step, k: nat)
    requires Inv(s) && Enabled(s, step) && Cadence(s, k)
    ensures Cadence(Next(s, step), k)
  {
    match step
    case Request(i, x, p, delay, at) => Append(s.log, Asked(x, i, p, at, delay), k);
    case Forward =>
      var x := s.requests[0].txn;
      assert Local(s, x, 0);
      var d := Decode(s.payload[x].address);
      if Completes(s) { ForwardCompletedCadence(s, x, d, k); } else { ForwardDeferredCadence(s, x, d, k); }
    case SendEndReq =>
      assert Local(s, s.req.txn, 0);
      if s.pending[s.req.txn].from.Some? {
        Append(s.log, SentEndReq(s.req.txn, s.pending[s.req.txn].from.value, s.now), k);
      }
    case Respond(answer) =>
      var x := s.responses[0].txn;
      assert Local(s, x, 0);
      Append(s.log, SentResp(x, s.pending[x].from.value, answer.Done?, s.now, Lasting(answer)), k);
    case InitiatorEndResp(x, delay) => Append(s.log, Ended(x, s.now, delay), k);
    case Close =>
      assert Local(s, s.resp.txn, k);
      CloseCadence(s, k);
    case TargetRespond(t) => TargetRespondCadence(s, t, k);
    case _ =>
  }

  lemma {:induction false} RunCadence(s: State, steps: seq<Step>, s': State, k: nat)
    requires Inv(s) && Runs(s, steps, s') && Cadence(s, k)
    ensures Cadence(s', k)
    decreases |steps|
  {
    if steps != [] {
      StepCadence(s, steps[0], k);
      StepKeeps(s, steps[0]);
      RunCadence(Next(s, steps[0]), steps[1..], s', k);
    }
  }

  /** Over every run a target defers its 20th, 40th, ... request and closes every other one at once. */
  lemma DefersEveryTwentieth(s: State, k: nat)
    requires Reachable(s) && k < |s.targets|
    ensures EveryTwentieth(s.log, k)
  {
    var s0, steps :| Initial(s0) && Runs(s0, steps, s);
    InitialInv(s0);
    RunCadence(s0, steps, s, k);
  }
}
