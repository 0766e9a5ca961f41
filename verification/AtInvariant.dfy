/**
 What every reachable state of the bus and its targets satisfies: each pending transaction is in
 exactly one place, the bus's records match that place, and no assertion of the code ever fails.
 */
module AtInvariant {
  import opened AddressMap
  import opened Common
  import opened PayloadQueue
  import opened AtProtocol

  /** How often the transaction is in the response queue of the target it was sent to. */
  function AtTarget(s: State, x: Txn): nat {
    if x in s.pending && s.pending[x].to.Some? && s.pending[x].to.value < |s.targets|
    then Count(s.targets[s.pending[x].to.value].queue, x) else 0
  }

  /** A target's queue holds only transactions that were sent to it. */
  predicate OnlySentTo(s: State, x: Txn, k: nat) {
    k < |s.targets| && Count(s.targets[k].queue, x) > 0 ==> x in s.pending && s.pending[x].to == Some(k)
  }

  predicate InResponse(s: State, x: Txn) {
    !s.resp.RespIdle? && s.resp.txn == x
  }

  /** In how many places the transaction is. */
  function Occupancy(s: State, x: Txn): nat {
    Count(s.requests, x) + AtTarget(s, x) + Count(s.responses, x) + if InResponse(s, x) then 1 else 0
  }

  /** The record's `to` names a target exactly when that target still waits for this END_RESP. */
  predicate Expected(s: State, x: Txn)
    requires x in s.pending
  {
    match s.pending[x].to
    case None => true
    case Some(k) => k < |s.targets| && s.targets[k].awaiting == Some(x) && s.targets[k].endRespRcvd == None
  }

  /** The bus's record of a pending transaction fits the place where the transaction is. */
  predicate Recorded(s: State, x: Txn)
    requires x in s.pending
  {
    var c := s.pending[x];
    && x in s.payload
    && (Count(s.requests, x) > 0 ==>
          c.from.Some? && c.to.None? && Decode(s.payload[x].address) < |s.targets|)
    && (AtTarget(s, x) > 0 ==> c.from.Some?)
    && (Count(s.responses, x) > 0 ==> c.from.Some? && Expected(s, x))
    && (InResponse(s, x) ==> c.from.None? && Expected(s, x))
  }

  /** A pending transaction is in exactly one place, recorded as such, and held by one reference. */
  predicate Placed(s: State, x: Txn) {
    && Occupancy(s, x) == (if x in s.pending then 1 else 0)
    && Held(s, x) == (if x in s.pending then 1 else 0)
    && (x in s.pending ==> Recorded(s, x))
  }

  /** Response exclusion at one target: the one response it waits for is on its way through the bus. */
  predicate TargetWaits(s: State, k: nat)
    requires k < |s.targets|
  {
    var t := s.targets[k];
    && (t.endRespRcvd.Some? ==> t.awaiting.Some?)
    && (t.awaiting.Some? && t.endRespRcvd.None? ==>
          var x := t.awaiting.value;
          && x in s.pending && s.pending[x].to == Some(k)
          && (Count(s.responses, x) > 0 || InResponse(s, x)))
    && t.config.readDelay > 0 && t.config.writeDelay > 0
  }

  /** While END_REQ is due, the transaction rests in its target until strictly later. */
  ghost predicate RequestWait(s: State) {
    && !s.req.ReqEvent?
    && (s.req.ReqEndReq? ==>
          var x := s.req.txn;
          && s.now <= s.req.until
          && x in s.pending && s.pending[x].to.Some? && s.pending[x].to.value < |s.targets|
          && Count(s.targets[s.pending[x].to.value].queue, x) > 0
          && OnlyAfter(s.targets[s.pending[x].to.value].queue, x, s.req.until))
  }

  /** Response exclusion at the bus: at most one BEGIN_RESP awaits END_RESP, and that END_RESP is its own. */
  predicate OneResponse(s: State) {
    if s.resp.RespEvent? then
      || (s.owing.Keys == {s.resp.txn} && s.endResponse.None?)
      || (s.owing.Keys == {} && s.endResponse.Some?)
    else s.owing.Keys == {} && s.endResponse.None?
  }

  /** The invariant as one transaction and one target see it. */
  predicate Local(s: State, x: Txn, k: nat) {
    Placed(s, x) && OnlySentTo(s, x, k) && (k < |s.targets| ==> TargetWaits(s, k))
  }

  ghost predicate Inv(s: State) {
    && (forall x: Txn, k: nat :: Local(s, x, k))
    && RequestWait(s) && OneResponse(s) && !s.fault
  }

  // ---------------------------------------------------------------- each step keeps the invariant

  // Each lemma speaks of one transaction `y` and one target `j`, and asks only for the invariant at
  // these and at the transaction and target that the step moves.

  lemma RequestKeeps(s: State, i: nat, x: Txn, p: Payload, delay: nat, at: nat, y: Txn, j: nat)
    requires Local(s, x, j) && Local(s, y, j) && x !in s.pending && Decode(p.address) < |s.targets|
    ensures Local(DoRequest(s, i, x, p, delay, at), y, j)
  {
    NotifyCount(s.requests, x, at + delay, y);
  }

  /** The target answers the next request at once. */
  predicate Completes(s: State)
    requires s.requests != []
  {
    var x := s.requests[0].txn;
    && x in s.payload && Decode(s.payload[x].address) < |s.targets|
    && s.targets[Decode(s.payload[x].address)].count % 20 != 0
  }

  lemma ForwardCompletedKeeps(s: State, y: Txn, j: nat)
    requires s.requests != [] && Completes(s)
    requires Local(s, s.requests[0].txn, j) && Local(s, y, j)
    ensures Local(DoForward(s), y, j)
    ensures !DoForward(s).fault == !s.fault
  {
    hide Notify;
    var x := s.requests[0].txn;
    var due := DoForward(s).req.until;
    NotifyCount(s.responses, x, due, y);
    if j < |s.targets| && s.targets[j].awaiting.Some? {
      NotifyCount(s.responses, x, due, s.targets[j].awaiting.value);
    }
  }

  lemma ForwardDeferredKeeps(s: State, y: Txn, j: nat, k: nat)
    requires s.requests != [] && !Completes(s) && s.requests[0].txn in s.payload
    requires k == Decode(s.payload[s.requests[0].txn].address)
    requires Local(s, s.requests[0].txn, j) && Local(s, y, j) && Local(s, y, k) && Local(s, s.requests[0].txn, k)
    ensures Local(DoForward(s), y, j)
    ensures !DoForward(s).fault == !s.fault
  {
    hide Notify;
    var x := s.requests[0].txn;
    var t := s.targets[k];
    var p := s.payload[x].(address := Mask(s.payload[x].address));
    NotifyCount(t.queue, x, s.now + OperationDelay(t.config, p) + t.config.accept, y);
  }

  lemma ForwardWait(s: State, k: nat)
    requires s.requests != [] && s.requests[0].txn in s.payload
    requires k == Decode(s.payload[s.requests[0].txn].address)
    requires Local(s, s.requests[0].txn, k) && s.req.ReqIdle?
    ensures RequestWait(DoForward(s))
  {
    hide Notify;
    var x := s.requests[0].txn;
    var t := s.targets[k];
    if !Completes(s) {
      var p := s.payload[x].(address := Mask(s.payload[x].address));
      var due := s.now + OperationDelay(t.config, p) + t.config.accept;
      NotifyCount(t.queue, x, due, x);
      NotifyEntries(t.queue, x, due);
      CountEntry(t.queue, x);
    }
  }

  lemma RespondKeeps(s: State, answer: Answer, y: Txn, j: nat)
    requires s.responses != [] && s.resp.RespIdle?
    requires Local(s, s.responses[0].txn, j) && Local(s, y, j)
    ensures Local(DoRespond(s, answer), y, j)
    ensures !DoRespond(s, answer).fault == !s.fault
  {
    hide Notify;
  }

  lemma CloseKeeps(s: State, y: Txn, j: nat)
    requires s.resp.RespPause? || s.resp.RespGo?
    requires Local(s, s.resp.txn, j) && Local(s, y, j)
    ensures Local(DoClose(s), y, j)
    ensures !DoClose(s).fault == !s.fault
  {
    ClosePlaced(s, y);
    var x := s.resp.txn;
    var s' := DoClose(s);
    assert OnlySentTo(s', y, j) by {
      assert OnlySentTo(s, y, j) && (y == x ==> AtTarget(s, x) == 0);
    }
    if j < |s.targets| {
      assert TargetWaits(s, j);
      assert s'.targets[j] == s.targets[j] || s.pending[x].to == Some(j);
    }
  }

  lemma ClosePlaced(s: State, y: Txn)
    requires s.resp.RespPause? || s.resp.RespGo?
    requires Placed(s, s.resp.txn) && Placed(s, y)
    ensures Placed(DoClose(s), y)
  {
    var x := s.resp.txn;
    var s' := DoClose(s);
    assert s'.pending == s.pending - {x};
    if y != x {
      assert y in s.pending ==> s'.pending[y] == s.pending[y];
      assert AtTarget(s', y) == AtTarget(s, y);
      if y in s.pending && Expected(s, y) {
        assert s.pending[y].to.Some? ==> s.pending[y].to != s.pending[x].to;
        assert Expected(s', y);
      }
    }
  }

  /** What a target's response method finds at the head of its queue. */
  lemma TargetHead(s: State, k: nat)
    requires k < |s.targets| && s.targets[k].queue != []
    requires Local(s, s.targets[k].queue[0].txn, k)
    ensures var x := s.targets[k].queue[0].txn;
      && x in s.pending && s.pending[x].from.Some? && s.pending[x].to == Some(k)
      && Count(s.requests, x) == 0 && Count(s.targets[k].queue[1..], x) == 0
      && Count(s.responses, x) == 0 && !InResponse(s, x)
  {
  }

  lemma TargetRespondKeeps(s: State, k: nat, y: Txn, j: nat)
    requires k < |s.targets| && s.targets[k].queue != [] && s.targets[k].awaiting.None?
    requires Local(s, s.targets[k].queue[0].txn, k) && Local(s, y, k) && Local(s, y, j)
    ensures Local(DoTargetRespond(s, k), y, j)
  {
    TargetHead(s, k);
    var x := s.targets[k].queue[0].txn;
    NotifyCount(s.responses, x, s.now, y);
    NotifyCount(s.responses, x, s.now, x);
    if j < |s.targets| && s.targets[j].awaiting.Some? {
      NotifyCount(s.responses, x, s.now, s.targets[j].awaiting.value);
    }
  }

  lemma FireEndRespRcvdKeeps(s: State, k: nat, y: Txn, j: nat)
    requires k < |s.targets| && s.targets[k].endRespRcvd.Some?
    requires Local(s, y, k) && Local(s, y, j)
    ensures Local(DoFireEndRespRcvd(s, k), y, j)
  {
  }

  /** While END_REQ is due, a target's response method does not find its transaction. */
  lemma RequestWaitTarget(s: State, k: nat)
    requires k < |s.targets| && s.targets[k].queue != [] && s.targets[k].queue[0].due <= s.now
    requires Local(s, s.targets[k].queue[0].txn, k) && RequestWait(s)
    ensures RequestWait(DoTargetRespond(s, k))
  {
    TargetHead(s, k);
    var q := s.targets[k].queue;
    assert q[0] in q;
    assert q == [q[0]] + q[1..];
  }

  // ---------------------------------------------------------------- all together

  /** Steps that only move time, events and the places where threads wait. */
  lemma WaitingKeeps(s: State, s': State, y: Txn, j: nat)
    requires Local(s, y, j)
    requires s'.payload == s.payload && s'.pending == s.pending && s'.requests == s.requests
    requires s'.responses == s.responses && s'.targets == s.targets && s'.held == s.held
    requires InResponse(s', y) == InResponse(s, y)
    requires forall x :: InResponse(s', x) == InResponse(s, x)
    ensures Local(s', y, j)
  {
  }

  lemma ForwardKeeps(s: State, y: Txn, j: nat)
    requires Inv(s) && s.requests != []
    ensures Local(DoForward(s), y, j)
  {
    var x := s.requests[0].txn;
    assert Local(s, x, j) && Local(s, y, j);
    var k := Decode(s.payload[x].address);
    if Completes(s) {
      ForwardCompletedKeeps(s, y, j);
    } else {
      assert Local(s, x, k) && Local(s, y, k);
      ForwardDeferredKeeps(s, y, j, k);
    }
  }

  lemma StepLocal(s: State, step: Step, y: Txn, j: nat)
    requires Inv(s) && Enabled(s, step)
    ensures Local(Next(s, step), y, j)
  {
    hide Local;
    assert Local(s, y, j);
    match step
    case Request(i, x, p, delay, at) =>
      assert Local(s, x, j);
      RequestKeeps(s, i, x, p, delay, at, y, j);
    case Forward => ForwardKeeps(s, y, j);
    case Respond(answer) =>
      assert Local(s, s.responses[0].txn, j);
      RespondKeeps(s, answer, y, j);
    case Close =>
      assert Local(s, s.resp.txn, j);
      CloseKeeps(s, y, j);
    case TargetRespond(k) =>
      assert Local(s, s.targets[k].queue[0].txn, k) && Local(s, y, k);
      TargetRespondKeeps(s, k, y, j);
    case FireEndRespRcvd(k) =>
      assert Local(s, y, k);
      FireEndRespRcvdKeeps(s, k, y, j);
    case _ => WaitingKeeps(s, Next(s, step), y, j);
  }

  /** While END_REQ is due, no step disturbs the transaction it is for. */
  lemma StepWait(s: State, step: Step)
    requires Inv(s) && Enabled(s, step)
    ensures RequestWait(Next(s, step))
  {
    match step
    case Request(_, x, _, _, at) =>
      if s.req.ReqEndReq? { assert Scheduled(s, s.req.until); }
    case Advance(to) =>
      if s.req.ReqEndReq? { assert Scheduled(s, s.req.until); }
    case Forward =>
      var x := s.requests[0].txn;
      assert Local(s, x, 0);
      var k := Decode(s.payload[x].address);
      assert Local(s, x, k);
      ForwardWait(s, k);
    case Respond(answer) => RespondWait(s, answer);
    case Close =>
      assert Local(s, s.resp.txn, 0);
      CloseWait(s);
    case TargetRespond(k) =>
      assert Local(s, s.targets[k].queue[0].txn, k);
      RequestWaitTarget(s, k);
    case _ =>
  }

  lemma RespondWait(s: State, answer: Answer)
    requires Inv(s) && s.responses != [] && s.resp.RespIdle?
    ensures RequestWait(DoRespond(s, answer))
  {
    assert Local(s, s.responses[0].txn, 0);
    if s.req.ReqEndReq? { assert Local(s, s.req.txn, 0); }
  }

  lemma CloseWait(s: State)
    requires RequestWait(s) && (s.resp.RespPause? || s.resp.RespGo?) && Placed(s, s.resp.txn)
    ensures RequestWait(DoClose(s))
  {
  }

  lemma StepOneResponse(s: State, step: Step)
    requires Inv(s) && Enabled(s, step)
    ensures OneResponse(Next(s, step)) && !Next(s, step).fault
  {
    match step
    case Forward =>
      var x := s.requests[0].txn;
      assert Local(s, x, 0);
    case Respond(answer) =>
      assert Local(s, s.responses[0].txn, 0);
    case Close =>
      assert Local(s, s.resp.txn, 0);
    case InitiatorEndResp(x, _) =>
      assert x in s.owing.Keys;
      assert Next(s, step).owing.Keys == {};
    case Request(_, x, _, _, _) =>
    case SendEndReq =>
    case _ =>
  }

  lemma StepKeeps(s: State, step: Step)
    requires Inv(s) && Enabled(s, step)
    ensures Inv(Next(s, step))
  {
    forall y: Txn, j: nat ensures Local(Next(s, step), y, j) {
      StepLocal(s, step, y, j);
    }
    StepWait(s, step);
    StepOneResponse(s, step);
  }

  lemma InitialInv(s: State)
    requires Initial(s)
    ensures Inv(s)
  {
  }

  lemma {:induction false} RunKeeps(s: State, steps: seq<Step>, s': State)
    requires Inv(s) && Runs(s, steps, s')
    ensures Inv(s')
    decreases |steps|
  {
    if steps != [] {
      StepKeeps(s, steps[0]);
      RunKeeps(Next(s, steps[0]), steps[1..], s');
    }
  }

  /**
   In every reachable state a pending transaction is in exactly one place, its record matches that
   place, responses are exclusive, and no assertion of the code has failed.
   */
  lemma ReachableInv(s: State)
    requires Reachable(s)
    ensures Inv(s)
  {
    var s0, steps :| Initial(s0) && Runs(s0, steps, s);
    InitialInv(s0);
    RunKeeps(s0, steps, s);
  }
}
