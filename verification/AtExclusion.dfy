/**
 Response exclusion, section 15.2.6 of IEEE Std 1666-2011, read from the calls alone: at most one BEGIN_RESP is
 outstanding at the bus and at each target, and every END_RESP is the one of the response that is.
 */
module AtExclusion {
  import opened AddressMap
  import opened Common
  import opened PayloadQueue
  import opened AtProtocol
  import opened AtInvariant

  /** The transaction whose BEGIN_RESP went to an initiator and that the bus has not closed yet. */
  function Outstanding(log: seq<Event>): Option<Txn> {
    if log == [] then None
    else match log[|log| - 1]
      case SentResp(x, _, _, _, _) => Some(x)
      case Released(_, _) => None
      case _ => Outstanding(log[..|log| - 1])
  }

  /** The transaction whose END_RESP target `k` is owed. */
  function Awaited(log: seq<Event>, k: nat): Option<Txn> {
    if log == [] then None
    else match log[|log| - 1]
      case Responded(x, j, _) => if j == k then Some(x) else Awaited(log[..|log| - 1], k)
      case SentEndResp(_, j, _) => if j == k then None else Awaited(log[..|log| - 1], k)
      case _ => Awaited(log[..|log| - 1], k)
  }

  predicate Excludes(log: seq<Event>, e: Event) {
    match e
    case SentResp(_, _, _, _, _) => Outstanding(log) == None
    case Ended(x, _, _) => Outstanding(log) == Some(x)
    case Released(x, _) => Outstanding(log) == Some(x)
    case Responded(_, k, _) => Awaited(log, k) == None
    case SentEndResp(x, k, _) => Outstanding(log) == Some(x) && Awaited(log, k) == Some(x)
    case _ => true
  }

  predicate Exclusive(log: seq<Event>) {
    log == [] || (Exclusive(log[..|log| - 1]) && Excludes(log[..|log| - 1], log[|log| - 1]))
  }

  lemma Append(log: seq<Event>, e: Event, k: nat)
    ensures Outstanding(log + [e]) ==
      if e.SentResp? then Some(e.txn) else if e.Released? then None else Outstanding(log)
    ensures Awaited(log + [e], k) ==
      if e.Responded? && e.to == k then Some(e.txn) else if e.SentEndResp? && e.to == k then None else Awaited(log, k)
    ensures Exclusive(log + [e]) <==> Exclusive(log) && Excludes(log, e)
  {
    assert (log + [e])[..|log|] == log;
  }

  /** What the calls say is what the response thread and target `k` wait for. */
  predicate Agrees(s: State, k: nat) {
    && Exclusive(s.log)
    && Outstanding(s.log) == (if s.resp.RespIdle? then None else Some(s.resp.txn))
    && (k < |s.targets| ==>
          var t := s.targets[k];
          Awaited(s.log, k) == if t.endRespRcvd.None? then t.awaiting else None)
  }

  lemma ForwardAgrees(s: State, k: nat)
    requires s.requests != [] && Local(s, s.requests[0].txn, k) && Agrees(s, k)
    ensures Agrees(DoForward(s), k)
  {
    hide Notify, Outstanding, Awaited, Exclusive;
    var x := s.requests[0].txn;
    assert Count(s.requests, x) > 0;
    var j := Decode(s.payload[x].address);
    var sent := Sent(x, j, Mask(s.payload[x].address), s.now);
    Append(s.log, sent, k);
    if Completes(s) {
      Append(s.log + [sent], Operated(x, j), k);
      Append(s.log + [sent] + [Operated(x, j)], Closed(x, j, s.now), k);
      assert DoForward(s).log == s.log + [sent] + [Operated(x, j)] + [Closed(x, j, s.now)];
    } else {
      Append(s.log + [sent], Deferred(x, j, s.now), k);
      assert DoForward(s).log == s.log + [sent] + [Deferred(x, j, s.now)];
    }
  }

  lemma CloseAgrees(s: State, k: nat, j: nat)
    requires (s.resp.RespPause? || s.resp.RespGo?) && Local(s, s.resp.txn, k)
    requires s.pending[s.resp.txn].to == Some(j) ==> Agrees(s, j)
    requires Agrees(s, k) && (s.pending[s.resp.txn].to.Some? ==> s.pending[s.resp.txn].to.value == j)
    ensures Agrees(DoClose(s), k)
  {
    hide Outstanding, Awaited, Exclusive;
    var x := s.resp.txn;
    match s.pending[x].to
    case None => Append(s.log, Released(x, s.now), k);
    case Some(_) =>
      Append(s.log, SentEndResp(x, j, s.now), k);
      Append(s.log + [SentEndResp(x, j, s.now)], Released(x, s.now), k);
      assert DoClose(s).log == s.log + [SentEndResp(x, j, s.now)] + [Released(x, s.now)];
  }

  lemma TargetRespondAgrees(s: State, j: nat, k: nat)
    requires j < |s.targets| && s.targets[j].queue != [] && s.targets[j].awaiting.None?
    requires Agrees(s, j) && Agrees(s, k) && TargetWaits(s, j)
    ensures Agrees(DoTargetRespond(s, j), k)
  {
    hide Notify, Outstanding, Awaited, Exclusive, Count;
    var x := s.targets[j].queue[0].txn;
    Append(s.log, Operated(x, j), j);
    Append(s.log, Operated(x, j), k);
    Append(s.log + [Operated(x, j)], Responded(x, j, s.now), k);
    assert DoTargetRespond(s, j).log == s.log + [Operated(x, j)] + [Responded(x, j, s.now)];
  }

  lemma StepAgrees(s: State, step: Step, k: nat)
    requires Inv(s) && Enabled(s, step) && forall j: nat :: Agrees(s, j)
    ensures Agrees(Next(s, step), k)
  {
    hide Placed, Notify, Outstanding, Awaited, Exclusive, DoForward, DoClose, DoTargetRespond;
    assert Agrees(s, k);
    match step
    case Request(i, x, p, delay, at) => Append(s.log, Asked(x, i, p, at, delay), k);
    case Forward =>
      assert Local(s, s.requests[0].txn, k);
      ForwardAgrees(s, k);
    case SendEndReq =>
      if s.pending[s.req.txn].from.Some? {
        Append(s.log, SentEndReq(s.req.txn, s.pending[s.req.txn].from.value, s.now), k);
      } else {
        assert Next(s, step).log == s.log;
      }
    case Respond(answer) => RespondAgrees(s, answer, k);
    case InitiatorEndResp(x, delay) =>
      assert x in s.owing.Keys;
      Append(s.log, Ended(x, s.now, delay), k);
    case Close => CloseStepAgrees(s, k);
    case TargetRespond(j) =>
      assert Local(s, 0, j) && Agrees(s, j);
      TargetRespondAgrees(s, j, k);
    case FireEndRespRcvd(j) => assert Local(s, 0, j);
    case _ =>
  }

  lemma RespondAgrees(s: State, answer: Answer, k: nat)
    requires Inv(s) && s.responses != [] && s.resp.RespIdle? && Agrees(s, k)
    ensures Agrees(DoRespond(s, answer), k)
  {
    hide Outstanding, Awaited, Exclusive;
    var x := s.responses[0].txn;
    assert Local(s, x, k);
    Append(s.log, SentResp(x, s.pending[x].from.value, answer.Done?, s.now, Lasting(answer)), k);
  }

  lemma CloseStepAgrees(s: State, k: nat)
    requires Inv(s) && (s.resp.RespPause? || s.resp.RespGo?) && forall j: nat :: Agrees(s, j)
    ensures Agrees(DoClose(s), k)
  {
    hide Agrees, DoClose;
    var x := s.resp.txn;
    assert Local(s, x, k) && Agrees(s, k);
    var j := if s.pending[x].to.Some? then s.pending[x].to.value else 0;
    assert Agrees(s, j);
    CloseAgrees(s, k, j);
  }

  lemma {:induction false} RunAgrees(s: State, steps: seq<Step>, s': State)
    requires Inv(s) && Runs(s, steps, s') && forall k: nat :: Agrees(s, k)
    ensures forall k: nat :: Agrees(s', k)
    decreases |steps|
  {
    hide Inv, Agrees, Next, Enabled;
    if steps != [] {
      StepKeeps(s, steps[0]);
      forall k: nat ensures Agrees(Next(s, steps[0]), k) { StepAgrees(s, steps[0], k); }
      RunAgrees(Next(s, steps[0]), steps[1..], s');
    }
  }

  /** Over every run responses exclude each other, at the bus and at every target, and each END_RESP finds its own. */
  lemma ResponsesExclude(s: State)
    requires Reachable(s)
    ensures Exclusive(s.log)
  {
    var s0, steps :| Initial(s0) && Runs(s0, steps, s);
    InitialInv(s0);
    RunAgrees(s0, steps, s);
    assert Agrees(s, 0);
  }

  /** The bus holds exactly one reference to a transaction while it is pending, and none otherwise. */
  lemma OneReference(s: State, x: Txn)
    requires Reachable(s)
    ensures (if x in s.held then s.held[x] else 0) == if x in s.pending then 1 else 0
  {
    ReachableInv(s);
    assert Local(s, x, 0);
  }
}
