/**
 The bus never blocks and never works forever: with finitely many requests every run ends, and it ends
 with every transaction closed.
 */
module AtProgress {
  import opened AddressMap
  import opened Common
  import opened PayloadQueue
  import opened AtProtocol
  import opened AtInvariant
  import opened AtPhases

  // ---------------------------------------------------------------- a rank that every step lowers

  function One<T>(o: Option<T>): nat { if o.Some? then 1 else 0 }

  function TargetWeight(t: Target): nat { 7 * |t.queue| + One(t.endRespRcvd) }

  function TargetsWeight(ts: seq<Target>, n: nat): nat
    requires n <= |ts|
  {
    if n == 0 then 0 else TargetsWeight(ts, n - 1) + TargetWeight(ts[n - 1])
  }

  /** Protocol work still to do for the transactions the bus has accepted. */
  function Weight(s: State): nat {
    9 * |s.requests| + TargetsWeight(s.targets, |s.targets|) + 5 * |s.responses|
    + (if s.req.ReqIdle? then 0 else 1) + One(s.endRequest)
    + (if s.resp.RespIdle? then 0 else 2) + One(s.endResponse)
    + (if s.owing.Keys == {} then 0 else 2)
  }

  /** Some process or notification is due now. */
  ghost predicate Due(s: State) {
    exists u: nat :: Scheduled(s, u) && u <= s.now
  }

  ghost function Rank(s: State): nat { 2 * Weight(s) + if Due(s) then 0 else 1 }

  lemma {:induction false} TargetsWeightUpdate(ts: seq<Target>, k: nat, t: Target, n: nat)
    requires k < |ts| && n <= |ts|
    ensures TargetsWeight(ts[k := t], n) + (if k < n then TargetWeight(ts[k]) else 0)
         == TargetsWeight(ts, n) + (if k < n then TargetWeight(t) else 0)
  {
    if n > 0 { TargetsWeightUpdate(ts, k, t, n - 1); }
  }

  lemma ForwardCompletedWeight(s: State)
    requires s.requests != [] && s.req.ReqIdle? && Completes(s) && s.requests[0].txn in s.pending
    ensures Weight(DoForward(s)) < Weight(s)
  {
    var s' := DoForward(s);
    var k := Decode(s.payload[s.requests[0].txn].address);
    TargetsWeightUpdate(s.targets, k, s'.targets[k], |s.targets|);
    NotifyEntries(s.responses, s.requests[0].txn, s'.req.until);
  }

  lemma ForwardDeferredWeight(s: State, x: Txn, k: nat)
    requires s.requests != [] && s.req.ReqIdle? && !Completes(s) && x == s.requests[0].txn
    requires x in s.pending && x in s.payload && k == Decode(s.payload[x].address) < |s.targets|
    ensures Weight(DoForward(s)) < Weight(s)
  {
    var t := s.targets[k];
    var p := s.payload[x].(address := Mask(s.payload[x].address));
    TargetsWeightUpdate(s.targets, k, DoForward(s).targets[k], |s.targets|);
    NotifyEntries(t.queue, x, s.now + OperationDelay(t.config, p) + t.config.accept);
  }

  lemma CloseWeight(s: State)
    requires (s.resp.RespPause? || s.resp.RespGo?) && Local(s, s.resp.txn, 0)
    ensures Weight(DoClose(s)) < Weight(s)
  {
    var x := s.resp.txn;
    if s.pending[x].to.Some? {
      var k := s.pending[x].to.value;
      TargetsWeightUpdate(s.targets, k, DoClose(s).targets[k], |s.targets|);
    }
  }

  lemma TargetStepWeight(s: State, step: Step)
    requires step.TargetRespond? || step.FireEndRespRcvd?
    requires Enabled(s, step)
    ensures Weight(Next(s, step)) < Weight(s)
  {
    var k := step.k;
    TargetsWeightUpdate(s.targets, k, Next(s, step).targets[k], |s.targets|);
    if step.TargetRespond? {
      NotifyEntries(s.responses, s.targets[k].queue[0].txn, s.now);
    }
  }

  /** Every step but a new request and the passing of time does some of the work. */
  lemma StepWeight(s: State, step: Step)
    requires Inv(s) && Enabled(s, step) && !step.Request? && !step.Advance?
    ensures Weight(Next(s, step)) < Weight(s)
  {
    match step
    case Forward =>
      var x := s.requests[0].txn;
      assert Local(s, x, 0);
      if Completes(s) { ForwardCompletedWeight(s); } else { ForwardDeferredWeight(s, x, Decode(s.payload[x].address)); }
    case Close =>
      assert Local(s, s.resp.txn, 0);
      CloseWeight(s);
    case TargetRespond(k) => TargetStepWeight(s, step);
    case FireEndRespRcvd(k) => TargetStepWeight(s, step);
    case InitiatorEndResp(x, _) =>
      assert x in s.owing.Keys;
      assert Next(s, step).owing.Keys == {};
    case Respond(answer) =>
      assert Local(s, s.responses[0].txn, 0);
    case SendEndReq =>
      assert Local(s, s.req.txn, 0);
    case _ =>
  }

  /** Time only moves to a moment at which something is due. */
  lemma AdvanceDue(s: State, to: nat)
    requires Enabled(s, Advance(to))
    ensures !Due(s) && Due(Next(s, Advance(to)))
  {
    if s.resp.RespGo? {
      assert Scheduled(s, s.now);
    }
    var s' := Next(s, Advance(to));
    if exists x :: x in s.owing && s.owing[x] == to {
      var x :| x in s.owing && s.owing[x] == to;
      assert x in s'.owing && s'.owing[x] == to;
    } else if exists k :: 0 <= k < |s.targets| && TargetAt(s.targets[k], to) {
      var k :| 0 <= k < |s.targets| && TargetAt(s.targets[k], to);
      assert 0 <= k < |s'.targets| && TargetAt(s'.targets[k], to);
    }
    assert Scheduled(s', to);
  }

  lemma StepRank(s: State, step: Step)
    requires Inv(s) && Enabled(s, step) && !step.Request?
    ensures Rank(Next(s, step)) < Rank(s)
  {
    match step
    case Advance(to) => AdvanceDue(s, to);
    case _ => StepWeight(s, step);
  }

  ghost predicate NoRequests(steps: seq<Step>) {
    forall step | step in steps :: !step.Request?
  }

  /** Without new requests no run is longer than the rank of its first state. */
  lemma {:induction false} RunsEnd(s: State, steps: seq<Step>, s': State)
    requires Inv(s) && Runs(s, steps, s') && NoRequests(steps)
    ensures |steps| + Rank(s') <= Rank(s)
    decreases |steps|
  {
    if steps != [] {
      StepRank(s, steps[0]);
      StepKeeps(s, steps[0]);
      RunsEnd(Next(s, steps[0]), steps[1..], s');
    }
  }

  // ---------------------------------------------------------------- something can always happen

  /** A transaction in a response queue or in the response thread moves on. */
  lemma ResponseScheduled(s: State, x: Txn) returns (u: nat)
    requires OneResponse(s) && (Count(s.responses, x) > 0 || InResponse(s, x))
    ensures Scheduled(s, u)
  {
    match s.resp
    case RespIdle => u := s.responses[0].due;
    case RespPause(_, until) => u := until;
    case RespGo(_) => u := s.now;
    case RespEvent(y) =>
      if s.endResponse.Some? {
        u := s.endResponse.value;
      } else {
        assert y in s.owing.Keys;
        u := s.owing[y];
      }
  }

  /** No circular wait: while a transaction is pending, something is scheduled. */
  lemma PendingScheduled(s: State, x: Txn) returns (u: nat)
    requires Inv(s) && x in s.pending
    ensures Scheduled(s, u)
  {
    assert Local(s, x, 0);
    if Count(s.requests, x) > 0 {
      match s.req
      case ReqIdle => u := s.requests[0].due;
      case ReqPause(until) => u := until;
      case ReqEndReq(_, until) => u := until;
    } else if Count(s.responses, x) > 0 || InResponse(s, x) {
      u := ResponseScheduled(s, x);
    } else {
      var k := s.pending[x].to.value;
      var t := s.targets[k];
      assert Local(s, x, k);
      if t.endRespRcvd.Some? {
        u := t.endRespRcvd.value;
        assert TargetAt(t, u);
      } else if t.awaiting.None? {
        u := t.queue[0].due;
        assert TargetAt(t, u);
      } else {
        u := ResponseScheduled(s, t.awaiting.value);
      }
    }
  }

  /** Something scheduled has an earliest. */
  lemma {:induction false} LeastScheduled(s: State, u: nat) returns (m: nat)
    requires Scheduled(s, u)
    ensures Scheduled(s, m) && NothingBefore(s, m) && m <= u
  {
    if v: nat :| v < u && Scheduled(s, v) {
      m := LeastScheduled(s, v);
    } else {
      m := u;
    }
  }

  /** Whatever is scheduled and due can take its step. */
  lemma DueStep(s: State, u: nat) returns (step: Step)
    requires Scheduled(s, u) && u <= s.now
    ensures !step.Request? && Enabled(s, step)
  {
    if RequestAt(s, u) {
      step := match s.req case ReqIdle => Forward case ReqPause(_) => RequestResume case _ => SendEndReq;
    } else if ResponseAt(s, u) {
      step := if s.resp.RespIdle? then Respond(Done(0)) else Close;
    } else if s.endRequest == Some(u) {
      step := FireEndRequest;
    } else if s.endResponse == Some(u) {
      step := FireEndResponse;
    } else if x :| x in s.owing && s.owing[x] == u {
      step := InitiatorEndResp(x, 0);
    } else {
      var k :| 0 <= k < |s.targets| && TargetAt(s.targets[k], u);
      step := if s.targets[k].endRespRcvd == Some(u) then FireEndRespRcvd(k) else TargetRespond(k);
    }
  }

  lemma ScheduledStep(s: State, u: nat) returns (step: Step)
    requires Scheduled(s, u)
    ensures !step.Request? && Enabled(s, step)
  {
    var m := LeastScheduled(s, u);
    if m <= s.now {
      step := DueStep(s, m);
    } else {
      step := Advance(m);
    }
  }

  lemma SomePending(s: State) returns (x: Txn)
    requires s.pending != map[]
    ensures x in s.pending
  {
    assert (forall y: Txn :: y !in s.pending) ==> s.pending == map[];
    x :| x in s.pending;
  }

  /** The bus, its targets and its initiators never deadlock. */
  lemma NoDeadlock(s: State) returns (step: Step)
    requires Reachable(s) && s.pending != map[]
    ensures !step.Request? && Enabled(s, step)
  {
    ReachableInv(s);
    var x := SomePending(s);
    var u := PendingScheduled(s, x);
    step := ScheduledStep(s, u);
  }

  /** Nothing is left: no transaction, no queue entry, no reference, and every process waits for new work. */
  ghost predicate Drained(s: State) {
    && s.pending == map[] && s.requests == [] && s.responses == []
    && s.req.ReqIdle? && s.resp.RespIdle? && s.owing == map[]
    && (forall k | 0 <= k < |s.targets| ::
          s.targets[k].queue == [] && s.targets[k].awaiting.None? && s.targets[k].endRespRcvd.None?)
    && (forall x: Txn :: Held(s, x) == 0 && Monitor(s.log, x) == Rest)
  }

  ghost predicate Stuck(s: State) {
    forall step: Step | Enabled(s, step) :: step.Request?
  }

  lemma StuckSchedule(s: State, u: nat)
    requires Stuck(s)
    ensures !Scheduled(s, u)
  {
    if Scheduled(s, u) {
      var step := ScheduledStep(s, u);
    }
  }

  /** A run that cannot go on without a new request has drained. */
  lemma MaximalRunsDrain(s: State)
    requires Reachable(s) && Stuck(s)
    ensures Drained(s)
  {
    ReachableInv(s);
    forall u: nat ensures !Scheduled(s, u) {
      StuckSchedule(s, u);
    }
    if s.pending != map[] {
      var x := SomePending(s);
      var u := PendingScheduled(s, x);
    }
    NothingScheduled(s);
    forall x: Txn ensures Held(s, x) == 0 && Monitor(s.log, x) == Rest {
      assert Local(s, x, 0);
      PhasesInOrder(s, x);
    }
  }

  lemma TargetScheduled(s: State, k: nat, u: nat)
    requires k < |s.targets|
    ensures TargetAt(s.targets[k], u) ==> Scheduled(s, u)
  {
  }

  lemma HeadCounted(q: Queue)
    ensures q != [] ==> Count(q, q[0].txn) > 0
  {
  }

  lemma NothingScheduled(s: State)
    requires Inv(s) && s.pending == map[]
    requires forall u: nat :: !Scheduled(s, u)
    ensures s.requests == [] && s.responses == [] && s.req.ReqIdle? && s.resp.RespIdle? && s.owing == map[]
    ensures forall k | 0 <= k < |s.targets| ::
              s.targets[k].queue == [] && s.targets[k].awaiting.None? && s.targets[k].endRespRcvd.None?
  {
    forall x: Txn ensures Count(s.requests, x) == 0 && Count(s.responses, x) == 0 && !InResponse(s, x) {
      assert Local(s, x, 0);
    }
    HeadCounted(s.requests);
    HeadCounted(s.responses);
    assert !s.resp.RespIdle? ==> InResponse(s, s.resp.txn);
    assert s.req.ReqPause? || s.req.ReqEndReq? ==> Scheduled(s, s.req.until);
    assert s.owing.Keys == {};
    forall k | 0 <= k < |s.targets|
      ensures s.targets[k].queue == [] && s.targets[k].awaiting.None? && s.targets[k].endRespRcvd.None?
    {
      var t := s.targets[k];
      assert Local(s, 0, k);
      forall x: Txn ensures Count(t.queue, x) == 0 {
        assert Local(s, x, k);
      }
      HeadCounted(t.queue);
      match t.endRespRcvd
      case None =>
      case Some(u) => TargetScheduled(s, k, u);
    }
  }
}
